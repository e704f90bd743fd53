/** The capture page's image store: five fixed views, each holding the data URL
    taken by the camera or read from an uploaded file, and the gate that lets
    the user move on to the analysis only when every view is filled. */
module Capture {
  import opened Wrappers
  import opened JsObject
  import opened Images

  datatype View = Front | Left | Right | Upper | Lower

  /** `SLOTS`, in display order. */
  const Slots: seq<View> := [Front, Left, Right, Upper, Lower]

  /** The property name a view is stored under. */
  function Name(v: View): string {
    match v
    case Front => "front"
    case Left => "left"
    case Right => "right"
    case Upper => "upper"
    case Lower => "lower"
  }

  const AllViews: set<View> := {Front, Left, Right, Upper, Lower}

  /** `allImagesRequired = SLOTS.length` */
  const RequiredCount: nat := |Slots|

  /** The slot list is the five views, each once, under five distinct names. */
  lemma SlotsAreTheFiveViews()
    ensures RequiredCount == 5 == |AllViews|
    ensures forall v: View :: v in Slots && v in AllViews
    ensures forall i, j :: 0 <= i < j < |Slots| ==> Slots[i] != Slots[j] && Name(Slots[i]) != Name(Slots[j])
  {
    forall v: View
      ensures v in Slots && v in AllViews
    {
      match v
      case Front => assert Slots[0] == v;
      case Left => assert Slots[1] == v;
      case Right => assert Slots[2] == v;
      case Upper => assert Slots[3] == v;
      case Lower => assert Slots[4] == v;
    }
  }

  /** A subset of a finite set is no larger, and only as large when equal. */
  lemma SubsetCard<T>(a: set<T>, b: set<T>)
    requires a <= b
    ensures |a| <= |b|
    ensures |a| == |b| ==> a == b
  {
    assert b * a == a;
    assert |b - a| == |b| - |a|;
    if |a| == |b| {
      assert b - a == {};
    }
  }

  /** Any set of views has at most five members, and exactly five only when it is all of them. */
  lemma ViewSetCard(vs: set<View>)
    ensures |vs| <= 5
    ensures |vs| == 5 ==> vs == AllViews
  {
    SlotsAreTheFiveViews();
    SubsetCard(vs, AllViews);
  }

  /** The page state the model needs: the `images` object, the selected view
      and whether the camera stream is on. */
  datatype State = State(images: Obj<View, Slot>, current: View, streamOn: bool)

  /** A fresh page: no images, the front view selected, no camera. */
  const Initial: State := State([], Front, false)

  /** `Object.values(images).filter(img => img).length`: never more than the
      entries, and zero exactly when no entry is truthy. */
  function CapturedCount(images: Obj<View, Slot>): (c: nat)
    ensures c <= |images|
    ensures c == 0 <==> forall i :: 0 <= i < |images| ==> !images[i].1.Truthy()
  {
    if |images| == 0 then 0
    else
      var rest := CapturedCount(images[1..]);
      assert forall i :: 1 <= i < |images| ==> images[i] == images[1..][i - 1];
      (if images[0].1.Truthy() then 1 else 0) + rest
  }

  /** `capturedCount === allImagesRequired`: it needs at least five entries. */
  predicate AllImagesCaptured(images: Obj<View, Slot>)
    ensures AllImagesCaptured(images) ==> |images| >= RequiredCount
  {
    CapturedCount(images) == RequiredCount
  }

  /** The page starts with nothing captured, so it cannot proceed, and five
      images remain to be taken. */
  lemma InitialHasNothingCaptured()
    ensures CapturedCount(Initial.images) == 0 && !AllImagesCaptured(Initial.images)
    ensures Remaining(Initial.images) == RequiredCount
    ensures ProceedButton(Initial).None?
  {
  }

  /** The views whose stored value is truthy. */
  function CapturedViews(images: Obj<View, Slot>): (cv: set<View>)
    ensures cv <= Keys(images)
  {
    if |images| == 0 then {}
    else (if images[0].1.Truthy() then {images[0].0} else {}) + CapturedViews(images[1..])
  }

  /** A view is among the captured ones exactly when its stored value is truthy. */
  lemma {:induction false} CapturedViewsHaveImages(images: Obj<View, Slot>, v: View)
    requires Wf(images)
    ensures v in CapturedViews(images) <==> HasImage(images, v)
  {
    if |images| > 0 {
      CapturedViewsHaveImages(images[1..], v);
    }
  }

  /** The count is the number of captured views. */
  lemma {:induction false} CountIsCapturedViews(images: Obj<View, Slot>)
    requires Wf(images)
    ensures CapturedCount(images) == |CapturedViews(images)|
  {
    if |images| > 0 {
      CountIsCapturedViews(images[1..]);
      assert images[0].0 !in CapturedViews(images[1..]);
    }
  }

  /** At most five images can ever be counted, so the remaining count
      `allImagesRequired - capturedCount` is never negative. */
  lemma CountAtMostRequired(images: Obj<View, Slot>)
    requires Wf(images)
    ensures CapturedCount(images) <= RequiredCount
  {
    CountIsCapturedViews(images);
    ViewSetCard(CapturedViews(images));
  }

  /** All five are captured exactly when every view holds a truthy image. */
  lemma AllCapturedIffEveryView(images: Obj<View, Slot>)
    requires Wf(images)
    ensures AllImagesCaptured(images) <==> forall v: View :: HasImage(images, v)
  {
    CountIsCapturedViews(images);
    var cv := CapturedViews(images);
    ViewSetCard(cv);
    SlotsAreTheFiveViews();
    if AllImagesCaptured(images) {
      forall v: View
        ensures HasImage(images, v)
      {
        CapturedViewsHaveImages(images, v);
      }
    } else {
      assert cv != AllViews;
      var w :| w in AllViews && w !in cv;
      CapturedViewsHaveImages(images, w);
    }
  }

  /** `allImagesRequired - capturedCount`, the number still to take. */
  function Remaining(images: Obj<View, Slot>): (r: nat)
    requires Wf(images)
    ensures r == RequiredCount - |CapturedViews(images)|
    ensures r == 0 <==> AllImagesCaptured(images)
  {
    CountAtMostRequired(images);
    CountIsCapturedViews(images);
    RequiredCount - CapturedCount(images)
  }

  /** Storing `x` under `k` changes the count only through that one slot. */
  lemma {:induction false} CountAfterPut(images: Obj<View, Slot>, k: View, x: Slot)
    requires Wf(images)
    ensures CapturedCount(Put(images, k, x)) ==
            CapturedCount(images) - (if HasImage(images, k) then 1 else 0) + (if x.Truthy() then 1 else 0)
  {
    if |images| > 0 {
      var after := Put(images, k, x);
      if images[0].0 == k {
        assert after[1..] == images[1..];
      } else {
        CountAfterPut(images[1..], k, x);
        assert after[1..] == Put(images[1..], k, x);
      }
    }
  }

  /** Every entry is counted only when the count equals the number of entries. */
  lemma {:induction false} FullCountMeansAllTruthy(images: Obj<View, Slot>)
    ensures CapturedCount(images) <= |images|
    ensures CapturedCount(images) == |images| ==> forall i :: 0 <= i < |images| ==> images[i].1.Truthy()
  {
    if |images| > 0 {
      FullCountMeansAllTruthy(images[1..]);
      if CapturedCount(images) == |images| {
        forall i | 0 <= i < |images|
          ensures images[i].1.Truthy()
        {
          if i > 0 {
            assert images[i] == images[1..][i - 1];
          }
        }
      }
    }
  }

  /** The view selector, `setCurrent(key)`: it moves the selection and
      touches neither the images nor the camera. */
  function Select(s: State, v: View): (r: State)
    ensures r.current == v && r.images == s.images && r.streamOn == s.streamOn
    ensures CapturedCount(r.images) == CapturedCount(s.images)
  {
    s.(current := v)
  }

  /** Whether `videoRef.current` is set: the preview shows the stored picture
      while the current view holds a truthy image and mounts the `<video>`
      element only otherwise, so the ref is `null` exactly while the current
      view is captured. */
  predicate VideoMounted(s: State) {
    !HasImage(s.images, s.current)
  }

  /** `snap`. Without a mounted video element it returns at once, so a view
      that already holds an image is never overwritten by the camera; with
      one, the canvas frame's data URL `frame` is stored under the current
      view. (The Snap button itself is shown only while the stream is on.) */
  function Snap(s: State, frame: string): (r: State)
    ensures r.current == s.current && r.streamOn == s.streamOn
    ensures HasImage(s.images, s.current) ==> r == s
    ensures !HasImage(s.images, s.current) ==> Get(r.images, s.current) == Some(Url(frame))
    ensures forall v :: v != s.current ==> Get(r.images, v) == Get(s.images, v)
    ensures Wf(s.images) ==> Wf(r.images)
  {
    if !VideoMounted(s) then s
    else s.(images := Put(s.images, s.current, Url(frame)))
  }

  /** Snapping a captured view is a no-op: its image, the count and the
      proceed gate all stay as they were. */
  lemma SnapKeepsCapturedView(s: State, frame: string)
    requires HasImage(s.images, s.current)
    ensures Get(Snap(s, frame).images, s.current) == Get(s.images, s.current)
    ensures CapturedCount(Snap(s, frame).images) == CapturedCount(s.images)
    ensures AllImagesCaptured(Snap(s, frame).images) == AllImagesCaptured(s.images)
  {
  }

  /** `onUpload`: when a file was chosen and read, its data URL is stored
      under the current view; `read` is `None` when no file was chosen. */
  function Upload(s: State, read: Option<string>): (r: State)
    ensures r.current == s.current
    ensures read.Some? ==> Get(r.images, s.current) == Some(Url(read.value))
    ensures forall v :: v != s.current ==> Get(r.images, v) == Get(s.images, v)
    ensures read.None? ==> r == s
    ensures Wf(s.images) ==> Wf(r.images)
  {
    match read
    case None => s
    case Some(dataUrl) => s.(images := Put(s.images, s.current, Url(dataUrl)))
  }

  /** The replace button: the current view is set to `undefined`. */
  function Replace(s: State): (r: State)
    requires Wf(s.images)
    ensures r.current == s.current && r.streamOn == s.streamOn
    ensures !HasImage(r.images, s.current)
    ensures forall v :: v != s.current ==> Get(r.images, v) == Get(s.images, v)
    ensures CapturedCount(r.images) ==
            CapturedCount(s.images) - (if HasImage(s.images, s.current) then 1 else 0)
    ensures Wf(r.images)
  {
    CountAfterPut(s.images, s.current, Undefined);
    s.(images := Put(s.images, s.current, Undefined))
  }

  /** The two ways to retake a view that already holds an image: uploading
      over it directly, or pressing Replace and snapping again. Either way the
      view ends up with the new picture and the count is unchanged. */
  lemma RetakeKeepsCount(s: State, frame: string)
    requires Wf(s.images) && HasImage(s.images, s.current) && frame != ""
    ensures var u := Upload(s, Some(frame));
            Get(u.images, s.current) == Some(Url(frame)) && CapturedCount(u.images) == CapturedCount(s.images)
    ensures var t := Snap(Replace(s), frame);
            Get(t.images, s.current) == Some(Url(frame)) && CapturedCount(t.images) == CapturedCount(s.images)
  {
    CountAfterPut(s.images, s.current, Url(frame));
    var cleared := Replace(s);
    CountAfterPut(cleared.images, s.current, Url(frame));
  }

  /** Filling an empty view, by camera or by upload, raises the count by one. */
  lemma FirstCaptureCounts(s: State, frame: string)
    requires Wf(s.images) && !HasImage(s.images, s.current) && frame != ""
    ensures CapturedCount(Snap(s, frame).images) == CapturedCount(s.images) + 1
    ensures CapturedCount(Upload(s, Some(frame)).images) == CapturedCount(s.images) + 1
  {
    CountAfterPut(s.images, s.current, Url(frame));
  }

  /** What the proceed button does. */
  datatype Proceed =
    | Blocked(required: nat, captured: nat)          // the alert, no navigation
    | Navigate(path: string, dentalImages: Obj<View, Slot>)

  /** The proceed button's click handler: an alert while fewer than five are
      captured, otherwise navigation to the results page carrying the images
      object. */
  function ProceedAction(s: State): (p: Proceed)
    ensures p.Navigate? <==> AllImagesCaptured(s.images)
    ensures p.Navigate? ==> p.path == "/results" && p.dentalImages == s.images
    ensures p.Blocked? ==> p.required == 5 && p.captured == CapturedCount(s.images)
  {
    if !AllImagesCaptured(s.images) then Blocked(RequiredCount, CapturedCount(s.images))
    else Navigate("/results", s.images)
  }

  /** A click on the rendered proceed button. The button is `disabled` while
      fewer than five are captured, so the click is ignored (`None`) and the
      handler's alert branch is never reached; otherwise the handler runs and
      navigates. */
  function ProceedButton(s: State): (p: Option<Proceed>)
    ensures p.Some? <==> AllImagesCaptured(s.images)
    ensures p.Some? ==> p.value == Navigate("/results", s.images)
  {
    if !AllImagesCaptured(s.images) then None else Some(ProceedAction(s))
  }

  /** Whatever reaches the results page holds exactly the five views, each with
      a truthy image. */
  lemma NavigationCarriesFiveImages(s: State)
    requires Wf(s.images)
    requires ProceedAction(s).Navigate?
    ensures var imgs := ProceedAction(s).dentalImages;
            |imgs| == 5 && Keys(imgs) == AllViews &&
            forall i :: 0 <= i < |imgs| ==> imgs[i].1.Truthy()
  {
    var imgs := s.images;
    KeyCount(imgs);
    ViewSetCard(Keys(imgs));
    FullCountMeansAllTruthy(imgs);
  }
}
