/** The scene-level reduction of `ActivityPlugin.analyze_scene`: from the
    captions and qualifying object labels collected frame by frame to one
    `Activity`. Confidence is kept as an exact rational (`real`). */
module Scene {
  import opened Wrappers
  import opened Text
  import opened Ranking

  /** The `Activity` dataclass; `get_results` exports it field for field. */
  datatype Activity = Activity(activity: string, confidence: real, primaryObjects: seq<string>)

  /** `" ".join(captions).lower()`. */
  function CaptionText(captions: seq<string>): string {
    Lower(Join(captions, " "))
  }

  /** `verbs[0] if verbs else captions[0]`, with `verbs` the matches of
      `\b(\w+ing)\b` in the caption text. */
  function ChooseActivity(captions: seq<string>): string
    requires |captions| > 0
  {
    match FirstIngWord(CaptionText(captions))
    case Some(w) => w
    case None => captions[0]
  }

  /** The first `-ing` word of the captions taken one at a time. */
  function FirstCaptionWord(captions: seq<string>): Option<string> {
    if captions == [] then None
    else if FirstIngWord(Lower(captions[0])).Some? then FirstIngWord(Lower(captions[0]))
    else FirstCaptionWord(captions[1..])
  }

  /** `len(set(captions))`. */
  function DistinctCount(captions: seq<string>): nat {
    |set c | c in captions|
  }

  /** `1.0 / (1 + len(set(captions)))`. */
  function Confidence(captions: seq<string>): real {
    1.0 / (1 + DistinctCount(captions)) as real
  }

  /** The body of `analyze_scene` once it knows there is a caption. */
  function SceneActivity(captions: seq<string>, objects: seq<string>): (a: Activity)
    requires |captions| > 0
    ensures 0.0 < a.confidence <= 0.5
    ensures |a.primaryObjects| <= 3
    ensures forall o :: o in a.primaryObjects ==> o in objects
  {
    DistinctCountBounds(captions);
    ReciprocalBounds(DistinctCount(captions));
    MostCommon3Spec(objects);
    Activity(ChooseActivity(captions), Confidence(captions), MostCommon3(objects))
  }

  /** The activity is the leftmost `\b(\w+ing)\b` match of the lower-cased,
      space-joined captions, or the first caption verbatim when there is no
      match at all. */
  lemma ChooseActivitySpec(captions: seq<string>, i: nat, j: nat)
    requires |captions| > 0
    ensures var text := CaptionText(captions);
      (MatchAt(text, i, j) && (forall i', j' :: MatchAt(text, i', j') ==> i <= i'))
        ==> ChooseActivity(captions) == text[i..j]
    ensures (forall i', j' :: !MatchAt(CaptionText(captions), i', j'))
        ==> ChooseActivity(captions) == captions[0]
  {
    var text := CaptionText(captions);
    FirstMatchIsLeftmost(text, i, j);
    FirstMatchNone(text);
  }

  /** The number of distinct captions is between one and the number of captions. */
  lemma {:induction false} DistinctCountBounds(captions: seq<string>)
    ensures DistinctCount(captions) <= |captions|
    ensures |captions| > 0 ==> DistinctCount(captions) >= 1
  {
    if |captions| > 0 {
      var rest := captions[1..];
      DistinctCountBounds(rest);
      assert (set c | c in captions) == (set c | c in rest) + {captions[0]} by {
        assert captions == [captions[0]] + rest;
      }
      assert captions[0] in (set c | c in captions);
    }
  }

  /** Pairwise-distinct captions are all counted. */
  lemma {:induction false} DistinctCountAllDifferent(captions: seq<string>)
    requires forall a, b :: 0 <= a < b < |captions| ==> captions[a] != captions[b]
    ensures DistinctCount(captions) == |captions|
  {
    if |captions| > 0 {
      var rest := captions[1..];
      DistinctCountAllDifferent(rest);
      assert (set c | c in captions) == (set c | c in rest) + {captions[0]} by {
        assert captions == [captions[0]] + rest;
      }
      assert captions[0] !in rest;
    }
  }

  /** Identical captions count once. */
  lemma DistinctCountIdentical(captions: seq<string>)
    requires |captions| > 0 && forall k :: 0 <= k < |captions| ==> captions[k] == captions[0]
    ensures DistinctCount(captions) == 1
  {
    assert (set c | c in captions) == {captions[0]};
  }

  /** 1/(1+d) for d at least one is positive, at most 1/2, and 1/2 only for d = 1. */
  lemma ReciprocalBounds(d: nat)
    requires d >= 1
    ensures 0.0 < 1.0 / (1 + d) as real <= 0.5
    ensures 1.0 / (1 + d) as real == 0.5 <==> d == 1
  {
    var x := (1 + d) as real;
    var q := 1.0 / x;
    assert q * x == 1.0;
    if q == 0.5 {
      assert x == 2.0;
    }
  }

  /** The confidence lies in (0, 1/2]; it is 1/2 exactly when all captions
      are identical, and 1/(1+n) when all n captions differ. */
  lemma ConfidenceSpec(captions: seq<string>)
    requires |captions| > 0
    ensures 0.0 < Confidence(captions) <= 0.5
    ensures Confidence(captions) == 0.5 <==>
              forall k :: 0 <= k < |captions| ==> captions[k] == captions[0]
    ensures (forall a, b :: 0 <= a < b < |captions| ==> captions[a] != captions[b])
              ==> Confidence(captions) == 1.0 / (1 + |captions|) as real
  {
    DistinctCountBounds(captions);
    ReciprocalBounds(DistinctCount(captions));
    if forall k :: 0 <= k < |captions| ==> captions[k] == captions[0] {
      DistinctCountIdentical(captions);
    } else {
      var k :| 0 <= k < |captions| && captions[k] != captions[0];
      var all := set c | c in captions;
      assert captions[k] in all - {captions[0]};
      assert |all - {captions[0]}| == |all| - 1;
      assert DistinctCount(captions) >= 2;
    }
    if forall a, b :: 0 <= a < b < |captions| ==> captions[a] != captions[b] {
      DistinctCountAllDifferent(captions);
    }
  }

  lemma LowerAroundSpace(a: string, b: string)
    ensures Lower(a + " " + b) == Lower(a) + " " + Lower(b)
  {
  }

  /** Joining the captions cannot create a match across two of them: the
      activity word of the joined text is the first caption's `-ing` word,
      or else the second's, and so on. */
  lemma {:induction false} CaptionTextWord(captions: seq<string>)
    ensures FirstIngWord(CaptionText(captions)) == FirstCaptionWord(captions)
  {
    if |captions| == 0 {
      assert CaptionText(captions) == [];
    } else if |captions| >= 2 {
      var rest := captions[1..];
      CaptionTextWord(rest);
      LowerAroundSpace(captions[0], Join(rest, " "));
      FirstIngWordAcrossSpace(Lower(captions[0]), CaptionText(rest));
    }
  }

  /** The activity is the first `-ing` word of the earliest caption that has
      one, lower-cased; the first caption verbatim when none has one. */
  lemma ChooseActivityByCaption(captions: seq<string>)
    requires |captions| > 0
    ensures ChooseActivity(captions) ==
      match FirstCaptionWord(captions)
      case Some(w) => w
      case None => captions[0]
  {
    CaptionTextWord(captions);
  }
}
