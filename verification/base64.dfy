/** Octets, and base64 text in the standard alphabet of section 4 of
    RFC 4648 (`A`-`Z`, `a`-`z`, `0`-`9`, `+`, `/`, with `=` padding). Encoding
    and decoding themselves are library calls and stay abstract; only the
    alphabet matters here. */
module Base64 {
  import opened Text

  newtype byte = x: int | 0 <= x < 256

  /** The marker between a base64 data URL's media type and its data
      (section 3 of RFC 2397). */
  const Separator: string := ";base64,"

  predicate IsBase64Char(c: char) {
    ('A' <= c <= 'Z') || ('a' <= c <= 'z') || ('0' <= c <= '9') || c == '+' || c == '/' || c == '='
  }

  predicate IsBase64(s: string) {
    forall i :: 0 <= i < |s| ==> IsBase64Char(s[i])
  }

  /** What `buffer.toString('base64')` can return. */
  type Base64Text = s: string | IsBase64(s)

  /** No base64 character is `;`, so base64 text never holds `;base64,` nor
      any other string that starts with `;`. */
  lemma NoSemicolon(s: Base64Text, sep: string)
    requires |sep| > 0 && sep[0] == ';'
    ensures forall i :: 0 <= i < |s| ==> s[i] != sep[0]
    ensures !Contains(s, sep)
  {
    forall i | 0 <= i < |s|
      ensures s[i] != sep[0]
    {
      assert IsBase64Char(s[i]);
    }
    NoLeadNoOccurrence(s, sep);
  }
}
