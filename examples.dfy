/** Worked scenarios: concrete inputs run through the model, and two
    clients of `ActivityPlugin` that rely on its contracts alone. */
module Examples {
  import opened Wrappers
  import opened Text
  import opened Ranking
  import opened Scene
  import opened Plugin

  lemma LabelsInOrderExample()
    ensures FirstOccurrences(["a", "b", "a", "c", "b", "a"]) == ["a", "b", "c"]
  {
    var a, b, c := "a", "b", "c";
    var xs := [a, b, a, c, b, a];
    assert FirstOccurrences([a]) == [a] by { assert [a][..0] == []; }
    assert FirstOccurrences([a, b]) == [a, b] by { assert [a, b][..1] == [a]; }
    assert FirstOccurrences([a, b, a]) == [a, b] by { assert [a, b, a][..2] == [a, b]; }
    assert FirstOccurrences([a, b, a, c]) == [a, b, c] by { assert [a, b, a, c][..3] == [a, b, a]; }
    assert FirstOccurrences([a, b, a, c, b]) == [a, b, c] by { assert [a, b, a, c, b][..4] == [a, b, a, c]; }
    assert xs[..5] == [a, b, a, c, b];
  }

  lemma CountsExample(xs: seq<string>)
    requires xs == ["a", "b", "a", "c", "b", "a"]
    ensures Count(xs, "a") == 3 && Count(xs, "b") == 2 && Count(xs, "c") == 1
  {
  }

  lemma TopKFront<T>(xs: seq<T>, cands: seq<T>, k: nat)
    requires k > 0 && |cands| > 0 && BestIndex(xs, cands) == 0
    ensures TopK(xs, cands, k) == [cands[0]] + TopK(xs, cands[1..], k - 1)
  {
    assert cands[..0] + cands[1..] == cands[1..];
  }

  lemma RankingStepC(xs: seq<string>, cands: seq<string>)
    requires xs == ["a", "b", "a", "c", "b", "a"] && cands == ["c"]
    ensures TopK(xs, cands, 1) == ["c"]
  {
    TopKFront(xs, cands, 1);
  }

  lemma RankingStepB(xs: seq<string>, cands: seq<string>)
    requires xs == ["a", "b", "a", "c", "b", "a"] && cands == ["b", "c"]
    ensures TopK(xs, cands, 2) == ["b", "c"]
  {
    CountsExample(xs);
    assert cands[1..] == ["c"];
    assert BestIndex(xs, cands) == 0;
    TopKFront(xs, cands, 2);
    RankingStepC(xs, ["c"]);
  }

  lemma RankingExample(xs: seq<string>, cands: seq<string>)
    requires xs == ["a", "b", "a", "c", "b", "a"] && cands == ["a", "b", "c"]
    ensures TopK(xs, cands, 3) == ["a", "b", "c"]
  {
    CountsExample(xs);
    assert cands[1..] == ["b", "c"];
    assert BestIndex(xs, cands[1..]) == 0 by {
      assert cands[1..][1..] == ["c"];
    }
    assert BestIndex(xs, cands) == 0;
    TopKFront(xs, cands, 3);
    RankingStepB(xs, ["b", "c"]);
  }

  /** Counts 3, 2 and 1 give the labels in that order. */
  lemma MostCommon3Example(labels: seq<string>)
    requires labels == ["a", "b", "a", "c", "b", "a"]
    ensures MostCommon3(labels) == ["a", "b", "c"]
  {
    LabelsInOrderExample();
    RankingExample(labels, ["a", "b", "c"]);
  }

  lemma RunningIsIngWord()
    ensures FirstIngWord("running") == Some("running")
  {
    assert RunEnd("running", 0) == 7;
    assert "running"[0..7] == "running";
  }

  /** The caption of the identical-captions scenario, word by word. */
  lemma IngWordOfCaption(a: string, dog: string, running: string, inPark: string)
    requires a == "a" && dog == "dog" && running == "running" && inPark == "in park"
    ensures FirstIngWord(a + " " + (dog + " " + (running + " " + inPark))) == Some("running")
  {
    RunningIsIngWord();
    NoIngWordInShortWords();
    FirstIngWordAcrossSpace(running, inPark);
    FirstIngWordAcrossSpace(dog, running + " " + inPark);
    FirstIngWordAcrossSpace(a, dog + " " + (running + " " + inPark));
  }

  lemma NoIngWordInShortWords()
    ensures FirstIngWord("a") == None && FirstIngWord("dog") == None
  {
    assert RunEnd("a", 0) == 1;
    assert RunEnd("dog", 0) == 3;
  }

  /** Two identical captions: the activity is "running" and the confidence 1/2. */
  lemma IdenticalCaptionsExample(captions: seq<string>)
    requires captions == ["a dog running in park", "a dog running in park"]
    ensures ChooseActivity(captions) == "running" && Confidence(captions) == 0.5
  {
    var c := captions[0];
    assert c == "a" + " " + ("dog" + " " + ("running" + " " + "in park"));
    assert Lower(c) == c;
    IngWordOfCaption("a", "dog", "running", "in park");
    ChooseActivityByCaption(captions);
    ConfidenceSpec(captions);
  }

  /** Three pairwise different captions give confidence 1/4. */
  lemma DistinctCaptionsExample()
    ensures Confidence(["a cat", "a dog", "a bird"]) == 0.25
  {
    ConfidenceSpec(["a cat", "a dog", "a bird"]);
  }

  /** A plugin whose model never loaded records nothing and reports nothing. */
  method DisabledPlugin(caption: string, frame: FrameAnalysis)
    returns (out: FrameAnalysis, results: seq<Activity>, summary: Option<Summary>)
    ensures out == frame && results == [] && summary == None
  {
    var plugin := new ActivityPlugin();
    out := plugin.AnalyzeFrame(caption, frame);
    plugin.AnalyzeScene([out]);
    results := plugin.GetResults();
    summary := plugin.GetSummary();
  }

  /** `analyze_scene` ignores its argument: a second call with other frame
      records and no new frames leaves the same activities. */
  method SceneIsRepeatable(plugin: ActivityPlugin, first: seq<FrameAnalysis>, second: seq<FrameAnalysis>)
    returns (before: seq<Activity>)
    requires plugin.Valid()
    modifies plugin`activities
    ensures plugin.Valid() && plugin.activities == before
  {
    plugin.AnalyzeScene(first);
    before := plugin.activities;
    plugin.AnalyzeScene(second);
  }
}
