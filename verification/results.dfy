/** The results page's analysis run (`processImages`), the summary it shows
    (`getOverallStatus`) and the image it displays per view.

    The run gates on the health probe, then gives every entry of `images` its
    own task: detect, and only after a successful detect, annotate; an
    annotate failure is swallowed, a detect failure becomes that view's
    error. `Promise.all` keeps the tasks' results in entry order whatever the
    order they settle in, so the fan-out is modelled as a map over the
    entries. `detect(k, image)` and `annotate(k, image)` are the outcomes of
    the calls made for view `k`. */
module Results {
  import opened Wrappers
  import opened JsObject
  import opened Images
  import opened ApiClient

  /** The translation key of the connectivity error shown when the probe fails. */
  const HealthErrorKey: string := "results.errorMessage"

  /** A remote call made during a run, tagged with the view it was made for. */
  datatype Call<K> = DetectCall(view: K) | AnnotateCall(view: K)

  /** What a view's task resolves to: `{viewName, success, data, error, annotatedImage}`,
      with the calls it made. */
  datatype ViewTask<K> = ViewTask(view: K, result: ViewResult, annotatedImage: Option<string>, calls: seq<Call<K>>)

  /** `processingProgress`: `{current, total, currentView}`. */
  datatype Progress<K> = Progress(current: nat, total: nat, currentView: Option<K>)

  /** The page state a run reads and writes. */
  datatype Screen<K> = Screen(
    loading: bool,
    apiConnected: bool,
    error: Option<string>,
    detectionResults: Obj<K, ViewResult>,
    annotatedImages: Obj<K, string>,
    progress: seq<Progress<K>>,   // every `setProcessingProgress` value, in order
    calls: seq<Call<K>>)          // every detect / annotate call, task by task

  /** The page as first rendered: loading, nothing known yet. */
  function InitialScreen<K>(): Screen<K> {
    Screen(true, false, None, [], [], [], [])
  }

  /** One view's task: its annotate call happens only after its detect call
      succeeded, an annotate failure leaves the view successful without an
      annotated image, and a detect failure records the thrown message. */
  function AnalyzeView<K>(k: K, image: Slot,
                          detect: (K, Slot) -> Result<DetectionData, string>,
                          annotate: (K, Slot) -> Result<string, string>): (t: ViewTask<K>)
    ensures t.view == k
    ensures |t.calls| >= 1 && t.calls[0] == DetectCall(k)
    ensures forall c :: c in t.calls ==> c.view == k
    ensures AnnotateCall(k) in t.calls <==> detect(k, image).Success?
    ensures t.result.Succeeded? <==> detect(k, image).Success?
    ensures t.result.Succeeded? ==> t.result.data == detect(k, image).value
    ensures t.result.Failed? ==> t.result.error == detect(k, image).error && t.annotatedImage.None?
    ensures t.annotatedImage.Some? <==> detect(k, image).Success? && annotate(k, image).Success?
    ensures t.annotatedImage.Some? ==> t.annotatedImage.value == annotate(k, image).value
  {
    match detect(k, image)
    case Failure(msg) => ViewTask(k, Failed(msg), None, [DetectCall(k)])
    case Success(data) =>
      var annotated := match annotate(k, image)
                       case Success(a) => Some(a)
                       case Failure(_) => None;
      ViewTask(k, Succeeded(data), annotated, [DetectCall(k), AnnotateCall(k)])
  }

  /** `imageEntries.map(...)`: one task per entry, in entry order. */
  function Tasks<K>(images: Obj<K, Slot>,
                    detect: (K, Slot) -> Result<DetectionData, string>,
                    annotate: (K, Slot) -> Result<string, string>): (ts: seq<ViewTask<K>>)
    ensures |ts| == |images|
    ensures forall i :: 0 <= i < |images| ==> ts[i] == AnalyzeView(images[i].0, images[i].1, detect, annotate)
  {
    if |images| == 0 then []
    else [AnalyzeView(images[0].0, images[0].1, detect, annotate)] + Tasks(images[1..], detect, annotate)
  }

  /** The calls of all tasks. */
  function AllCalls<K(!new)>(tasks: seq<ViewTask<K>>): (cs: seq<Call<K>>)
    ensures forall c :: c in cs <==> exists i :: 0 <= i < |tasks| && c in tasks[i].calls
  {
    if |tasks| == 0 then [] else tasks[0].calls + AllCalls(tasks[1..])
  }

  /** `results.forEach(...)` storing, for each task whose `pick` is defined,
      that value under the task's view name. */
  function Collect<K(==, !new), V>(acc: Obj<K, V>, tasks: seq<ViewTask<K>>, pick: ViewTask<K> -> Option<V>): (r: Obj<K, V>)
    ensures Wf(acc) ==> Wf(r)
    decreases |tasks|
  {
    if |tasks| == 0 then acc
    else
      var acc' := match pick(tasks[0])
                  case Some(v) => Put(acc, tasks[0].view, v)
                  case None => acc;
      Collect(acc', tasks[1..], pick)
  }

  /** No two tasks are for the same view. */
  predicate DistinctViews<K(==)>(tasks: seq<ViewTask<K>>) {
    forall i, j :: 0 <= i < j < |tasks| ==> tasks[i].view != tasks[j].view
  }

  /** With distinct views, each task's picked value is what the merged object
      holds for its view, and views without a task keep their earlier value. */
  lemma {:induction false} CollectGet<K(!new), V>(acc: Obj<K, V>, tasks: seq<ViewTask<K>>, pick: ViewTask<K> -> Option<V>, k: K)
    requires DistinctViews(tasks)
    ensures forall i :: 0 <= i < |tasks| && tasks[i].view == k ==>
              Get(Collect(acc, tasks, pick), k) == (if pick(tasks[i]).Some? then pick(tasks[i]) else Get(acc, k))
    ensures (forall i :: 0 <= i < |tasks| ==> tasks[i].view != k) ==> Get(Collect(acc, tasks, pick), k) == Get(acc, k)
    decreases |tasks|
  {
    if |tasks| > 0 {
      var acc' := match pick(tasks[0])
                  case Some(v) => Put(acc, tasks[0].view, v)
                  case None => acc;
      var rest := tasks[1..];
      assert DistinctViews(rest);
      CollectGet(acc', rest, pick, k);
      assert Collect(acc, tasks, pick) == Collect(acc', rest, pick);
      forall i | 1 <= i < |tasks|
        ensures tasks[i] == rest[i - 1]
      {
      }
      if tasks[0].view == k {
        forall i | 0 <= i < |rest|
          ensures rest[i].view != k
        {
          assert rest[i] == tasks[i + 1];
        }
      }
    }
  }

  /** The value stored in `resultsMap` for a task. */
  function ResultOf<K>(t: ViewTask<K>): Option<ViewResult> {
    Some(t.result)
  }

  /** The value stored in `annotatedMap` for a task: only a truthy annotated image. */
  function AnnotationOf<K>(t: ViewTask<K>): Option<string> {
    match t.annotatedImage
    case Some(a) => if a != "" then Some(a) else None
    case None => None
  }

  /** Every `setProcessingProgress` of a healthy run: the start, then one per
      task as it starts. */
  function ProgressUpdates<K>(images: Obj<K, Slot>): (ps: seq<Progress<K>>)
    ensures |ps| == |images| + 1
  {
    [Progress(0, |images|, None)] +
    seq(|images|, i requires 0 <= i < |images| => Progress(i + 1, |images|, Some(images[i].0)))
  }

  /** `processImages`, with the probe's outcome decided by `CheckApiHealth`.
      An empty object is left to the other effect; otherwise loading ends and
      the connection flag is the probe's verdict. A failed probe shows the
      connectivity error and stops before any call; a healthy run keeps the
      error as it was and only appends to the call and progress logs. */
  function ProcessImages<K(==, !new)>(s: Screen<K>, images: Obj<K, Slot>,
                                      base: string, probe: string -> ProbeReply,
                                      detect: (K, Slot) -> Result<DetectionData, string>,
                                      annotate: (K, Slot) -> Result<string, string>): (r: Screen<K>)
    ensures |images| == 0 ==> r == s
    ensures |images| > 0 ==> !r.loading && r.apiConnected == CheckApiHealth(base, probe)
    ensures |images| > 0 && !CheckApiHealth(base, probe) ==>
              r.error == Some(HealthErrorKey) && r.calls == s.calls && r.progress == s.progress
    ensures |images| > 0 && CheckApiHealth(base, probe) ==>
              && r.error == s.error
              && |r.calls| >= |s.calls| && r.calls[..|s.calls|] == s.calls
              && |r.progress| == |s.progress| + |images| + 1 && r.progress[..|s.progress|] == s.progress
  {
    if |images| == 0 then s
    else
      var healthy := CheckApiHealth(base, probe);
      if !healthy then
        s.(apiConnected := false, error := Some(HealthErrorKey), loading := false)
      else
        var tasks := Tasks(images, detect, annotate);
        s.(apiConnected := true,
           progress := s.progress + ProgressUpdates(images),
           calls := s.calls + AllCalls(tasks),
           detectionResults := Collect([], tasks, ResultOf),
           annotatedImages := Collect([], tasks, AnnotationOf),
           loading := false)
  }

  /** The first run on a freshly rendered page: it ends loading either way;
      a failed probe leaves both maps empty, makes no call and shows only the
      connectivity error; a healthy run shows no error and logs exactly one
      progress value more than there are entries. */
  lemma {:induction false} FirstRunFromInitialScreen<K(!new)>(images: Obj<K, Slot>,
                                                              base: string, probe: string -> ProbeReply,
                                                              detect: (K, Slot) -> Result<DetectionData, string>,
                                                              annotate: (K, Slot) -> Result<string, string>)
    requires |images| > 0
    ensures var r := ProcessImages(InitialScreen(), images, base, probe, detect, annotate);
            && !r.loading
            && (!CheckApiHealth(base, probe) ==>
                  r.error == Some(HealthErrorKey) && !r.apiConnected &&
                  r.calls == [] && r.detectionResults == [] && r.annotatedImages == [])
            && (CheckApiHealth(base, probe) ==>
                  r.error.None? && r.apiConnected && |r.progress| == |images| + 1)
  {
  }

  /** An empty `images` object leaves the page untouched. */
  lemma {:induction false} NoImagesNoRun<K(!new)>(s: Screen<K>, base: string, probe: string -> ProbeReply,
                                   detect: (K, Slot) -> Result<DetectionData, string>,
                                   annotate: (K, Slot) -> Result<string, string>)
    ensures ProcessImages(s, [], base, probe, detect, annotate) == s
  {
  }

  /** A failed probe sets the connectivity error and ends loading, and no
      detect or annotate call is made for any view. */
  lemma {:induction false} UnhealthyRunMakesNoCalls<K(!new)>(s: Screen<K>, images: Obj<K, Slot>,
                                              base: string, probe: string -> ProbeReply,
                                              detect: (K, Slot) -> Result<DetectionData, string>,
                                              annotate: (K, Slot) -> Result<string, string>)
    requires |images| > 0 && !CheckApiHealth(base, probe)
    ensures var r := ProcessImages(s, images, base, probe, detect, annotate);
            && r.error == Some(HealthErrorKey) && !r.loading && !r.apiConnected
            && r.calls == s.calls && r.progress == s.progress
            && r.detectionResults == s.detectionResults && r.annotatedImages == s.annotatedImages
  {
  }

  /** The tasks of a well-formed object are for distinct views. */
  lemma {:induction false} TasksHaveDistinctViews<K>(images: Obj<K, Slot>,
                                  detect: (K, Slot) -> Result<DetectionData, string>,
                                  annotate: (K, Slot) -> Result<string, string>)
    requires Wf(images)
    ensures DistinctViews(Tasks(images, detect, annotate))
  {
    var ts := Tasks(images, detect, annotate);
    forall i, j | 0 <= i < j < |ts|
      ensures ts[i].view != ts[j].view
    {
      KeysDistinct(images, i, j);
    }
  }

  /** Merging every task's result stores, under each entry's view name, that
      view's own task outcome. */
  lemma {:induction false} MergedResultsLookup<K(!new)>(images: Obj<K, Slot>,
                                                        detect: (K, Slot) -> Result<DetectionData, string>,
                                                        annotate: (K, Slot) -> Result<string, string>)
    requires Wf(images)
    ensures var res := Collect([], Tasks(images, detect, annotate), ResultOf);
            forall i :: 0 <= i < |images| ==>
              Get(res, images[i].0) == Some(AnalyzeView(images[i].0, images[i].1, detect, annotate).result)
  {
    var tasks := Tasks(images, detect, annotate);
    TasksHaveDistinctViews(images, detect, annotate);
    forall i | 0 <= i < |images|
      ensures Get(Collect([], tasks, ResultOf), images[i].0) == Some(tasks[i].result)
    {
      CollectGet([], tasks, ResultOf, images[i].0);
    }
  }

  /** Merging every task's result gives exactly one entry per image entry. */
  lemma {:induction false} MergedResultsKeys<K(!new)>(images: Obj<K, Slot>,
                                                      detect: (K, Slot) -> Result<DetectionData, string>,
                                                      annotate: (K, Slot) -> Result<string, string>)
    requires Wf(images)
    ensures var res := Collect([], Tasks(images, detect, annotate), ResultOf);
            Wf(res) && Keys(res) == Keys(images) && |res| == |images|
  {
    var res := Collect([], Tasks(images, detect, annotate), ResultOf);
    MergedKeysFromImages(images, detect, annotate, ResultOf);
    assert Keys(images) <= Keys(res) by {
      MergedResultsLookup(images, detect, annotate);
      forall k | k in Keys(images)
        ensures k in Keys(res)
      {
        var i :| 0 <= i < |images| && images[i].0 == k;
        assert Get(res, images[i].0).Some?;
      }
    }
    SameKeysSameSize(res, images);
  }

  /** Every key of a merged object is a view of the input. */
  lemma {:induction false} MergedKeysFromImages<K(!new), V>(images: Obj<K, Slot>,
                                                            detect: (K, Slot) -> Result<DetectionData, string>,
                                                            annotate: (K, Slot) -> Result<string, string>,
                                                            pick: ViewTask<K> -> Option<V>)
    ensures Wf(Collect([], Tasks(images, detect, annotate), pick))
    ensures Keys(Collect([], Tasks(images, detect, annotate), pick)) <= Keys(images)
  {
    var tasks := Tasks(images, detect, annotate);
    CollectKeys([], tasks, pick);
    forall k | k in Keys(Collect([], tasks, pick))
      ensures k in Keys(images)
    {
      var i :| 0 <= i < |tasks| && tasks[i].view == k;
      assert images[i].0 == k;
    }
  }

  /** After a healthy run, `resultsMap` has exactly one entry per image entry,
      keyed by its view name, holding that view's own task outcome. */
  lemma {:induction false} EveryEntryYieldsOneResult<K(!new)>(s: Screen<K>, images: Obj<K, Slot>,
                                                              base: string, probe: string -> ProbeReply,
                                                              detect: (K, Slot) -> Result<DetectionData, string>,
                                                              annotate: (K, Slot) -> Result<string, string>)
    requires Wf(images) && |images| > 0 && CheckApiHealth(base, probe)
    ensures var r := ProcessImages(s, images, base, probe, detect, annotate);
            && !r.loading && r.apiConnected && r.error == s.error
            && Wf(r.detectionResults)
            && Keys(r.detectionResults) == Keys(images)
            && |r.detectionResults| == |images|
            && forall i :: 0 <= i < |images| ==>
                 Get(r.detectionResults, images[i].0) == Some(AnalyzeView(images[i].0, images[i].1, detect, annotate).result)
  {
    MergedResultsLookup(images, detect, annotate);
    MergedResultsKeys(images, detect, annotate);
    assert ProcessImages(s, images, base, probe, detect, annotate).detectionResults ==
           Collect([], Tasks(images, detect, annotate), ResultOf);
  }

  /** Every key of the merged object came from the accumulator or from a task. */
  lemma {:induction false} CollectKeys<K(!new), V>(acc: Obj<K, V>, tasks: seq<ViewTask<K>>, pick: ViewTask<K> -> Option<V>)
    ensures forall k :: k in Keys(Collect(acc, tasks, pick)) ==>
              k in Keys(acc) || exists i :: 0 <= i < |tasks| && tasks[i].view == k
    decreases |tasks|
  {
    if |tasks| > 0 {
      var acc' := match pick(tasks[0])
                  case Some(v) => Put(acc, tasks[0].view, v)
                  case None => acc;
      var rest := tasks[1..];
      CollectKeys(acc', rest, pick);
      assert Collect(acc, tasks, pick) == Collect(acc', rest, pick);
      assert Keys(acc') <= Keys(acc) + {tasks[0].view};
      forall k | k in Keys(Collect(acc, tasks, pick))
        ensures k in Keys(acc) || exists i :: 0 <= i < |tasks| && tasks[i].view == k
      {
        if j :| 0 <= j < |rest| && rest[j].view == k {
          assert tasks[j + 1].view == k;
        }
      }
    }
  }

  /** After a healthy run, `annotatedMap` has a key exactly for the views whose
      detect succeeded and whose annotate then returned a truthy image. */
  lemma {:induction false} AnnotatedOnlyWhenAnnotationSucceeded<K(!new)>(s: Screen<K>, images: Obj<K, Slot>,
                                                      base: string, probe: string -> ProbeReply,
                                                      detect: (K, Slot) -> Result<DetectionData, string>,
                                                      annotate: (K, Slot) -> Result<string, string>)
    requires Wf(images) && |images| > 0 && CheckApiHealth(base, probe)
    ensures var r := ProcessImages(s, images, base, probe, detect, annotate);
            && Wf(r.annotatedImages)
            && Keys(r.annotatedImages) <= Keys(images)
            && forall i :: 0 <= i < |images| ==>
                 Get(r.annotatedImages, images[i].0) ==
                   if detect(images[i].0, images[i].1).Success? && annotate(images[i].0, images[i].1).Success?
                      && annotate(images[i].0, images[i].1).value != ""
                   then Some(annotate(images[i].0, images[i].1).value) else None
  {
    var ann := ProcessImages(s, images, base, probe, detect, annotate).annotatedImages;
    assert ann == Collect([], Tasks(images, detect, annotate), AnnotationOf);
    MergedKeysFromImages(images, detect, annotate, AnnotationOf);
    forall i | 0 <= i < |images|
      ensures Get(ann, images[i].0) ==
                if detect(images[i].0, images[i].1).Success? && annotate(images[i].0, images[i].1).Success?
                   && annotate(images[i].0, images[i].1).value != ""
                then Some(annotate(images[i].0, images[i].1).value) else None
    {
      MergedAnnotationLookup(images, detect, annotate, i);
    }
  }

  /** The merged annotation object holds entry `i`'s annotated image exactly
      when its detect succeeded and its annotate returned a non-empty image. */
  lemma {:induction false} MergedAnnotationLookup<K(!new)>(images: Obj<K, Slot>,
                                                           detect: (K, Slot) -> Result<DetectionData, string>,
                                                           annotate: (K, Slot) -> Result<string, string>, i: nat)
    requires Wf(images) && i < |images|
    ensures var (k, img) := images[i];
            Get(Collect([], Tasks(images, detect, annotate), AnnotationOf), k) ==
              if detect(k, img).Success? && annotate(k, img).Success? && annotate(k, img).value != ""
              then Some(annotate(k, img).value) else None
  {
    var tasks := Tasks(images, detect, annotate);
    TasksHaveDistinctViews(images, detect, annotate);
    CollectGet([], tasks, AnnotationOf, images[i].0);
    assert tasks[i].view == images[i].0;
  }

  /** Annotate is called for a view only after that view's detect succeeded,
      and every entry's view gets exactly its detect call. */
  lemma {:induction false} AnnotateOnlyAfterDetect<K(!new)>(s: Screen<K>, images: Obj<K, Slot>,
                                             base: string, probe: string -> ProbeReply,
                                             detect: (K, Slot) -> Result<DetectionData, string>,
                                             annotate: (K, Slot) -> Result<string, string>)
    requires Wf(images) && |images| > 0 && CheckApiHealth(base, probe)
    ensures var r := ProcessImages(s, images, base, probe, detect, annotate);
            var made := r.calls[|s.calls|..];
            && (forall i :: 0 <= i < |images| ==> DetectCall(images[i].0) in made)
            && (forall i :: 0 <= i < |images| ==>
                  (AnnotateCall(images[i].0) in made <==> detect(images[i].0, images[i].1).Success?))
            && (forall c :: c in made ==> c.view in Keys(images))
  {
    var r := ProcessImages(s, images, base, probe, detect, annotate);
    var tasks := Tasks(images, detect, annotate);
    var made := r.calls[|s.calls|..];
    assert made == AllCalls(tasks);
    forall i | 0 <= i < |images|
      ensures DetectCall(images[i].0) in made
      ensures AnnotateCall(images[i].0) in made <==> detect(images[i].0, images[i].1).Success?
    {
      assert DetectCall(images[i].0) in tasks[i].calls;
      forall j | 0 <= j < |images| && j != i
        ensures AnnotateCall(images[i].0) !in tasks[j].calls
      {
        KeysDistinct(images, i, j);
      }
      if detect(images[i].0, images[i].1).Success? {
        assert AnnotateCall(images[i].0) in tasks[i].calls;
      }
    }
    forall c | c in made
      ensures c.view in Keys(images)
    {
      var j :| 0 <= j < |tasks| && c in tasks[j].calls;
      assert c.view == images[j].0;
    }
  }

  /** Fault isolation: a view's result depends only on the outcomes of its own
      calls, so changing what any sibling's calls return leaves it alone. */
  lemma {:induction false} SiblingsDoNotInterfere<K(!new)>(s: Screen<K>, images: Obj<K, Slot>,
                                            base: string, probe: string -> ProbeReply,
                                            detect1: (K, Slot) -> Result<DetectionData, string>,
                                            annotate1: (K, Slot) -> Result<string, string>,
                                            detect2: (K, Slot) -> Result<DetectionData, string>,
                                            annotate2: (K, Slot) -> Result<string, string>,
                                            i: nat)
    requires Wf(images) && CheckApiHealth(base, probe) && i < |images|
    requires detect1(images[i].0, images[i].1) == detect2(images[i].0, images[i].1)
    requires annotate1(images[i].0, images[i].1) == annotate2(images[i].0, images[i].1)
    ensures Get(ProcessImages(s, images, base, probe, detect1, annotate1).detectionResults, images[i].0) ==
            Get(ProcessImages(s, images, base, probe, detect2, annotate2).detectionResults, images[i].0)
  {
    EveryEntryYieldsOneResult(s, images, base, probe, detect1, annotate1);
    EveryEntryYieldsOneResult(s, images, base, probe, detect2, annotate2);
  }

  /** The merged results do not depend on the order of the entries: two
      objects listing the same view/image pairs give the same lookups. */
  lemma {:induction false} EntryOrderIrrelevant<K(!new)>(s: Screen<K>, images1: Obj<K, Slot>, images2: Obj<K, Slot>,
                                          base: string, probe: string -> ProbeReply,
                                          detect: (K, Slot) -> Result<DetectionData, string>,
                                          annotate: (K, Slot) -> Result<string, string>, k: K)
    requires Wf(images1) && Wf(images2) && |images1| > 0 && |images2| > 0 && CheckApiHealth(base, probe)
    requires forall e :: e in images1 <==> e in images2
    ensures Get(ProcessImages(s, images1, base, probe, detect, annotate).detectionResults, k) ==
            Get(ProcessImages(s, images2, base, probe, detect, annotate).detectionResults, k)
  {
    EveryEntryYieldsOneResult(s, images1, base, probe, detect, annotate);
    EveryEntryYieldsOneResult(s, images2, base, probe, detect, annotate);
    assert k in Keys(images1) ==> k in Keys(images2) by {
      if k in Keys(images1) {
        var i :| 0 <= i < |images1| && images1[i].0 == k;
        assert images1[i] in images2;
      }
    }
    assert k in Keys(images2) ==> k in Keys(images1) by {
      if k in Keys(images2) {
        var j :| 0 <= j < |images2| && images2[j].0 == k;
        assert images2[j] in images1;
      }
    }
    if k in Keys(images1) {
      var i :| 0 <= i < |images1| && images1[i].0 == k;
      assert images1[i] in images2;
      var j :| 0 <= j < |images2| && images2[j] == images1[i];
    }
  }

  /** Progress during a healthy run: a start value with `current` 0, then one
      value per entry, each with `total` the number of entries and
      `1 <= current <= total`, counting up to `total`. */
  lemma {:induction false} ProgressStaysInRange<K(!new)>(s: Screen<K>, images: Obj<K, Slot>,
                                          base: string, probe: string -> ProbeReply,
                                          detect: (K, Slot) -> Result<DetectionData, string>,
                                          annotate: (K, Slot) -> Result<string, string>)
    requires |images| > 0 && CheckApiHealth(base, probe)
    ensures var ps := ProcessImages(s, images, base, probe, detect, annotate).progress[|s.progress|..];
            && |ps| == |images| + 1
            && ps[0] == Progress(0, |images|, None)
            && (forall i :: 1 <= i < |ps| ==> ps[i].total == |images| && 1 <= ps[i].current <= ps[i].total)
            && (forall i :: 1 <= i < |ps| ==> ps[i].currentView == Some(images[i - 1].0))
            && (forall i :: 0 <= i < |ps| - 1 ==> ps[i].current < ps[i + 1].current)
            && ps[|ps| - 1].current == |images|
  {
  }

  /** `annotatedImages[viewName] || images[viewName]`: the image shown in the
      analysis column of a view. A truthy annotated image wins; otherwise the
      original is shown, so the column is blank only when neither exists. */
  function AnalysisImage<K(==)>(images: Obj<K, Slot>, annotated: Obj<K, string>, k: K): (img: Slot)
    ensures Get(annotated, k).Some? && Get(annotated, k).value != "" ==> img == Url(Get(annotated, k).value)
    ensures !(Get(annotated, k).Some? && Get(annotated, k).value != "") ==> img == Get(images, k).GetOr(Undefined)
    ensures img.Truthy() <==> (Get(annotated, k).Some? && Get(annotated, k).value != "") || HasImage(images, k)
  {
    match Get(annotated, k)
    case Some(a) => if a != "" then Url(a) else Get(images, k).GetOr(Undefined)
    case None => Get(images, k).GetOr(Undefined)
  }

  /** After a healthy run the analysis column shows the annotated image where
      annotation succeeded and falls back to the original everywhere else. */
  lemma {:induction false} DisplayFallsBackToOriginal<K(!new)>(s: Screen<K>, images: Obj<K, Slot>,
                                                base: string, probe: string -> ProbeReply,
                                                detect: (K, Slot) -> Result<DetectionData, string>,
                                                annotate: (K, Slot) -> Result<string, string>, i: nat)
    requires Wf(images) && CheckApiHealth(base, probe) && i < |images|
    ensures AnalysisImage(images, ProcessImages(s, images, base, probe, detect, annotate).annotatedImages, images[i].0) ==
              if detect(images[i].0, images[i].1).Success? && annotate(images[i].0, images[i].1).Success?
                 && annotate(images[i].0, images[i].1).value != ""
              then Url(annotate(images[i].0, images[i].1).value) else images[i].1
  {
    var ann := ProcessImages(s, images, base, probe, detect, annotate).annotatedImages;
    var (k, img) := images[i];
    AnnotatedOnlyWhenAnnotationSucceeded(s, images, base, probe, detect, annotate);
    assert Get(ann, k) ==
             if detect(k, img).Success? && annotate(k, img).Success? && annotate(k, img).value != ""
             then Some(annotate(k, img).value) else None;
    GetEntry(images, i);
    assert Get(images, k) == Some(img);
  }

  /** `getOverallStatus()` */
  datatype Status = Status(totalDetections: nat, hasIssues: bool)

  /** The detections a stored result contributes: those of a successful
      result whose data carries `detect_objects`. */
  function DetectionsOf(r: ViewResult): nat {
    if r.Succeeded? && r.data.objects.Some? then |r.data.objects.value| else 0
  }

  /** The summary loop over `Object.values(detectionResults)`, accumulating
      the total and the issue flag separately, as the page does. */
  function OverallStatus<K>(results: Obj<K, ViewResult>): (st: Status)
    ensures st.hasIssues <==> st.totalDetections > 0
  {
    if |results| == 0 then Status(0, false)
    else
      var rest := OverallStatus(results[1..]);
      var r := results[0].1;
      if r.Succeeded? && r.data.objects.Some? then
        Status(rest.totalDetections + |r.data.objects.value|, rest.hasIssues || |r.data.objects.value| > 0)
      else rest
  }

  /** The issue flag is set exactly when some successful result has a
      detection, which is exactly when the total is positive. */
  lemma {:induction false} HasIssuesIffDetections<K>(results: Obj<K, ViewResult>)
    ensures OverallStatus(results).hasIssues <==> OverallStatus(results).totalDetections > 0
    ensures OverallStatus(results).hasIssues <==> exists i :: 0 <= i < |results| && DetectionsOf(results[i].1) > 0
  {
    if |results| > 0 {
      HasIssuesIffDetections(results[1..]);
      if exists i :: 1 <= i < |results| && DetectionsOf(results[i].1) > 0 {
        var i :| 1 <= i < |results| && DetectionsOf(results[i].1) > 0;
        assert results[1..][i - 1] == results[i];
      }
      if exists i :: 0 <= i < |results[1..]| && DetectionsOf(results[1..][i].1) > 0 {
        var i :| 0 <= i < |results[1..]| && DetectionsOf(results[1..][i].1) > 0;
        assert results[1..][i] == results[i + 1];
      }
    }
  }

  /** Failed views add nothing to the summary: dropping every failure leaves
      the totals unchanged. */
  lemma {:induction false} FailuresDoNotCount<K>(results: Obj<K, ViewResult>)
    ensures OverallStatus(results) == OverallStatus(SucceededOnly(results))
  {
    if |results| > 0 {
      FailuresDoNotCount(results[1..]);
    }
  }

  /** The successful entries, in order: an entry is kept exactly when it
      succeeded, and a result with no failure is kept whole. */
  function SucceededOnly<K>(results: Obj<K, ViewResult>): (r: Obj<K, ViewResult>)
    ensures forall i :: 0 <= i < |r| ==> r[i].1.Succeeded?
    ensures forall i :: 0 <= i < |r| ==> r[i] in results
    ensures forall i :: 0 <= i < |results| && results[i].1.Succeeded? ==> results[i] in r
    ensures |r| <= |results|
    ensures (forall i :: 0 <= i < |results| ==> results[i].1.Succeeded?) ==> r == results
  {
    if |results| == 0 then []
    else if results[0].1.Succeeded? then [results[0]] + SucceededOnly(results[1..])
    else SucceededOnly(results[1..])
  }
}
