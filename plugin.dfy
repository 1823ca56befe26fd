/** `ActivityPlugin`: collects one caption and the confidently detected
    object labels per frame, then reduces them to at most one `Activity`
    for the whole video and exports it in two shapes.

    The captioning model is abstracted: `AnalyzeFrame` receives the caption
    the model produced for the frame. Whether the model and its processor
    are loaded is kept as two flags. */
module Plugin {
  import opened Wrappers
  import opened Scene

  /** One entry of a frame record's `objects` list: `name` is its `label`
      key (`label` is a Dafny keyword), which is required (a missing label
      raises in the source); `confidence` may be missing. */
  datatype DetectedObject = DetectedObject(name: string, confidence: Option<real>)

  /** The per-frame record, reduced to the fields this plugin reads and writes. */
  datatype FrameAnalysis = FrameAnalysis(
    objects: Option<seq<DetectedObject>>,
    activityCaption: Option<string>)

  /** `frame_analysis.get("objects", [])`. */
  function ObjectsOf(frame: FrameAnalysis): seq<DetectedObject> {
    frame.objects.GetOr([])
  }

  /** Objects below or at this confidence are not recorded. */
  const ObjectThreshold: real := 0.4

  /** `obj.get("confidence", 0) > 0.4`. */
  predicate Qualifies(o: DetectedObject) {
    o.confidence.GetOr(0.0) > ObjectThreshold
  }

  /** The labels of the qualifying objects, in encounter order. */
  function QualifyingLabels(objs: seq<DetectedObject>): (r: seq<string>)
    ensures |r| <= |objs|
    ensures forall l :: l in r ==> exists o :: o in objs && Qualifies(o) && o.name == l
    ensures forall o :: o in objs && Qualifies(o) ==> o.name in r
  {
    if objs == [] then []
    else
      var last := objs[|objs| - 1];
      QualifyingLabels(objs[..|objs| - 1]) + (if Qualifies(last) then [last.name] else [])
  }

  /** Collecting frame by frame gives the labels of all frames in sequence. */
  lemma {:induction false} QualifyingLabelsAppend(a: seq<DetectedObject>, b: seq<DetectedObject>)
    ensures QualifyingLabels(a + b) == QualifyingLabels(a) + QualifyingLabels(b)
    decreases |b|
  {
    if b == [] {
      assert a + b == a;
    } else {
      var b' := b[..|b| - 1];
      assert (a + b)[..|a + b| - 1] == a + b';
      assert (a + b)[|a + b| - 1] == b[|b| - 1];
      QualifyingLabelsAppend(a, b');
    }
  }

  /** An object at exactly the threshold, or one without a confidence, is
      never recorded. */
  lemma ThresholdIsStrict(name: string)
    ensures QualifyingLabels([DetectedObject(name, Some(ObjectThreshold))]) == []
    ensures QualifyingLabels([DetectedObject(name, None)]) == []
  {
  }

  /** The flat record `get_summary` returns: `activity` renamed to `primary_activity`. */
  datatype Summary = Summary(primaryActivity: string, confidence: real, primaryObjects: seq<string>)

  class ActivityPlugin {
    var captions: seq<string>
    var frameObjects: seq<string>
    var activities: seq<Activity>
    var modelLoaded: bool
    var processorLoaded: bool

    /** Every object this plugin has read from a frame record while enabled. */
    ghost var seenObjects: seq<DetectedObject>
    /** The number of `AnalyzeFrame` calls so far. */
    ghost var frameCalls: nat

    ghost predicate Valid()
      reads this
    {
      && frameObjects == QualifyingLabels(seenObjects)
      && |captions| <= frameCalls
      && |activities| <= 1
      && (captions == [] ==> activities == [])
    }

    /** The plugin is enabled once both the captioning model and its processor are loaded. */
    predicate Enabled()
      reads this
    {
      modelLoaded && processorLoaded
    }

    constructor ()
      ensures Valid() && !Enabled()
      ensures captions == [] && frameObjects == [] && activities == []
      ensures !modelLoaded && !processorLoaded
      ensures seenObjects == [] && frameCalls == 0
    {
      captions, frameObjects, activities := [], [], [];
      modelLoaded, processorLoaded := false, false;
      seenObjects, frameCalls := [], 0;
    }

    /** `setup`: loads the processor and the model. */
    method Setup()
      requires Valid()
      modifies this`modelLoaded, this`processorLoaded
      ensures Valid() && Enabled()
    {
      processorLoaded := true;
      modelLoaded := true;
    }

    /** `analyze_frame`, with `caption` the model's caption for the frame. */
    method AnalyzeFrame(caption: string, frame: FrameAnalysis) returns (result: FrameAnalysis)
      requires Valid()
      modifies this`captions, this`frameObjects, this`seenObjects, this`frameCalls
      ensures Valid()
      ensures frameCalls == old(frameCalls) + 1
      ensures !Enabled() ==>
        && result == frame
        && captions == old(captions)
        && frameObjects == old(frameObjects)
        && seenObjects == old(seenObjects)
      ensures Enabled() ==>
        && result == frame.(activityCaption := Some(caption))
        && captions == old(captions) + [caption]
        && frameObjects == old(frameObjects) + QualifyingLabels(ObjectsOf(frame))
        && seenObjects == old(seenObjects) + ObjectsOf(frame)
    {
      frameCalls := frameCalls + 1;
      if !modelLoaded || !processorLoaded {
        return frame;
      }
      captions := captions + [caption];
      result := frame.(activityCaption := Some(caption));
      var objs := ObjectsOf(frame);
      RecordObjects(objs);
      QualifyingLabelsAppend(seenObjects, objs);
      seenObjects := seenObjects + objs;
    }

    /** The loop of `analyze_frame` over the frame's objects: appends the
        label of every qualifying object to `frameObjects`, in order. */
    method RecordObjects(objs: seq<DetectedObject>)
      modifies this`frameObjects
      ensures frameObjects == old(frameObjects) + QualifyingLabels(objs)
    {
      for i := 0 to |objs|
        invariant frameObjects == old(frameObjects) + QualifyingLabels(objs[..i])
      {
        assert objs[..i + 1][..i] == objs[..i] && objs[..i + 1][i] == objs[i];
        if Qualifies(objs[i]) {
          frameObjects := frameObjects + [objs[i].name];
        }
      }
      assert objs[..|objs|] == objs;
    }

    /** `analyze_scene`: reads only the collected captions and labels, never
        its argument. With no caption it leaves the (empty) result alone;
        otherwise the result is the one scene activity. */
    method AnalyzeScene(allFrameAnalyses: seq<FrameAnalysis>)
      requires Valid()
      modifies this`activities
      ensures Valid()
      ensures captions == [] ==> activities == old(activities) == []
      ensures captions != [] ==> activities == [SceneActivity(captions, frameObjects)]
    {
      if captions == [] {
        return;
      }
      activities := [SceneActivity(captions, frameObjects)];
    }

    /** `get_results`: the stored activities as flat records. */
    function GetResults(): (r: seq<Activity>)
      reads this
      requires Valid()
      ensures |r| <= 1
      ensures captions == [] ==> r == []
    {
      activities
    }

    /** `get_summary`: nothing before a scene activity exists, otherwise the
        same fields as the single `get_results` entry, `activity` renamed. */
    function GetSummary(): (s: Option<Summary>)
      reads this
      requires Valid()
      ensures s == None <==> GetResults() == []
      ensures s.Some? ==>
        var a := GetResults()[0];
        s.value == Summary(a.activity, a.confidence, a.primaryObjects)
    {
      if activities == [] then None
      else
        var a := activities[0];
        Some(Summary(a.activity, a.confidence, a.primaryObjects))
    }
  }
}
