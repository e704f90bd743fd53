/** How the separately written pieces fit together: the data URL the image
    proxy builds is read back by the client's parser exactly; the client's
    backend calls and the configured proxy routes are different URLs; and
    the client and the proxies share one size limit. */
module Interop {
  import opened Wrappers
  import opened Text
  import opened Base64
  import opened Backend
  import ApiClient
  import ApiConfig
  import Proxy
  import PredictImage

  /** For `data:<mime>;base64,<payload>` with no `:` in the media type and no
      `;base64,` in either part, the client's parser returns the media type
      and exactly the payload. */
  lemma {:induction false} ClientParsesDataUrl(mime: string, payload: string)
    requires forall i :: 0 <= i < |mime| ==> mime[i] != ':'
    requires !Contains(mime, Separator) && !Contains(payload, Separator)
    ensures ApiClient.ParseDataUrl(PredictImage.DataUrl(mime, payload)) ==
            ApiClient.DataUrlParts(Some(mime), Some(payload))
  {
    var head := "data:" + mime;
    HeadSplits(mime);
    HeadWithoutSeparator(mime);
    SplitAfterPrefix(head, Separator, payload);
    SplitWithoutSeparator(payload, Separator);
    assert Split(PredictImage.DataUrl(mime, payload), Separator) == [head, payload] by {
      assert PredictImage.DataUrl(mime, payload) == head + Separator + payload;
    }
  }

  /** Text free of `:` on both sides of a single `:` splits into those two parts. */
  lemma SplitAtOnlyColon(a: string, b: string, h: string)
    requires forall i :: 0 <= i < |a| ==> a[i] != ':'
    requires forall i :: 0 <= i < |b| ==> b[i] != ':'
    requires h == a + ":" + b
    ensures Split(h, ":") == [a, b]
  {
    NoLeadNoOccurrence(a, ":");
    SplitAfterPrefix(a, ":", b);
    SplitWithoutLead(b, ":");
  }

  /** The `data:` scheme holds neither `:` before its colon nor any `;`. */
  lemma SchemeFacts(mime: string)
    ensures forall i :: 0 <= i < |"data"| ==> "data"[i] != ':'
    ensures forall i :: 0 <= i < |"data:"| ==> "data:"[i] != ';'
    ensures "data:" + mime == "data" + ":" + mime
  {
  }

  /** `data:<mime>` splits at `:` into `data` and the media type. */
  lemma HeadSplits(mime: string)
    requires forall i :: 0 <= i < |mime| ==> mime[i] != ':'
    ensures Split("data:" + mime, ":") == ["data", mime]
  {
    SchemeFacts(mime);
    SplitAtOnlyColon("data", mime, "data:" + mime);
  }

  /** `data:<mime>` holds no `;base64,` when the media type holds none. */
  lemma HeadWithoutSeparator(mime: string)
    requires !Contains(mime, Separator)
    ensures !Contains("data:" + mime, Separator)
  {
    SchemeFacts(mime);
    PrefixWithoutLead("data:", mime, Separator);
  }

  /** The image proxy's success body, read by the client, yields the media
      type it reported and exactly the base64 text it encoded: base64 text
      never holds `;`, so it cannot hold the separator. */
  lemma {:induction false} AnnotatedDataUrlRoundTrip(mime: string, b64: Base64Text)
    requires forall i :: 0 <= i < |mime| ==> mime[i] != ':'
    requires !Contains(mime, Separator)
    ensures ApiClient.ParseDataUrl(PredictImage.DataUrl(mime, b64)) == ApiClient.DataUrlParts(Some(mime), Some(b64))
  {
    NoSemicolon(b64, Separator);
    ClientParsesDataUrl(mime, b64);
  }

  /** Converting such a data URL decodes exactly its payload and labels the
      blob with its media type. */
  lemma {:induction false} BlobOfDataUrl(mime: string, b64: Base64Text, atob: string -> Option<string>)
    requires forall i :: 0 <= i < |mime| ==> mime[i] != ':'
    requires !Contains(mime, Separator)
    ensures var r := ApiClient.Base64ToBlob(PredictImage.DataUrl(mime, b64), atob);
            && (r.Success? <==> atob(b64).Some?)
            && (r.Success? ==> r.value == ApiClient.Blob(Some(mime), ApiClient.CharCodes(atob(b64).value)))
  {
    AnnotatedDataUrlRoundTrip(mime, b64);
  }

  /** The fallback media type `image/jpeg` always round-trips. */
  lemma {:induction false} DefaultMimeRoundTrips(b64: Base64Text)
    ensures ApiClient.ParseDataUrl(PredictImage.DataUrl(PredictImage.DefaultMime, b64)) ==
            ApiClient.DataUrlParts(Some("image/jpeg"), Some(b64))
  {
    var mime := PredictImage.DefaultMime;
    forall i | 0 <= i < |mime|
      ensures mime[i] != ':' && mime[i] != Separator[0]
    {
    }
    NoLeadNoOccurrence(mime, Separator);
    AnnotatedDataUrlRoundTrip(mime, b64);
  }

  /** The client's calls go straight to the backend's routes, never to a
      configured proxy route: for every key of the endpoint table and every
      base, the resolved URL differs from the three backend URLs. */
  lemma {:induction false} ClientCallsBypassProxies(base: string, key: string)
    requires ApiConfig.EndpointPath(key).Some?
    ensures var url := ApiConfig.GetApiUrl(base, key);
            url != base + DetectRoute && url != base + AnnotateRoute && url != base + HealthRoute
  {
    var path := ApiConfig.EndpointPath(key).value;
    var url := ApiConfig.GetApiUrl(base, key);
    assert url == base + path;
    assert url[|base| + 1] == 'a';
    assert (base + DetectRoute)[|base| + 1] == 'i';
    assert (base + AnnotateRoute)[|base| + 1] == 'i';
    assert (base + HealthRoute)[|base| + 1] == 'h';
  }

  /** `MAX_IMAGE_SIZE` in the client configuration is the limit both proxies enforce. */
  lemma SharedSizeLimit()
    ensures ApiConfig.MaxImageSize == Proxy.MaxSize == 10 * 1024 * 1024
  {
  }
}
