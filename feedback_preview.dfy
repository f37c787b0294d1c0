/*
 * The preview screen: a read-only view of the session, with "N/A" for an absent name and
 * the recorded answers listed by ascending question number (`toSortedMap()`).
 */
module FeedbackPreview {
  import opened KotlinStd
  import opened Session

  /** What the preview shows. */
  datatype Preview = Preview(username: string, trainer: string, moduleName: string, answers: seq<(int, int)>)

  /** The two buttons and where they lead. */
  datatype Button = Submit | GoBack
  datatype Navigation = OpenSubmitScreen | FinishScreen

  lemma NonEmptyHasElement(keys: set<int>)
    requires |keys| > 0
    ensures exists x :: x in keys
  {
    if forall x :: x !in keys {
      assert false;
    }
  }

  /** `k` is the smallest element of `keys`. */
  predicate IsLeast(k: int, keys: set<int>) {
    k in keys && forall j :: j in keys ==> k <= j
  }

  lemma {:induction false} MinExists(keys: set<int>)
    requires |keys| > 0
    ensures exists k :: IsLeast(k, keys)
    decreases |keys|
  {
    NonEmptyHasElement(keys);
    var x :| x in keys;
    if keys == {x} {
      assert IsLeast(x, keys);
    } else {
      var rest := keys - {x};
      MinExists(rest);
      var m :| IsLeast(m, rest);
      var least := if x < m then x else m;
      forall j | j in keys ensures least <= j {
        if j != x {
          assert j in rest;
        }
      }
      assert IsLeast(least, keys);
    }
  }

  /** The smallest question number that has an answer. */
  function MinKey(answers: map<int, int>): (k: int)
    requires |answers| > 0
    ensures k in answers && forall j :: j in answers ==> k <= j
  {
    MinExists(answers.Keys);
    var k :| IsLeast(k, answers.Keys);
    k
  }

  /** `answers.toSortedMap().entries`: the entries, smallest question number first. */
  function SortedAnswers(answers: map<int, int>): (entries: seq<(int, int)>)
    ensures |entries| == |answers|
    ensures forall i :: 0 <= i < |entries| ==> entries[i].0 in answers && answers[entries[i].0] == entries[i].1
    ensures forall i, j :: 0 <= i < j < |entries| ==> entries[i].0 < entries[j].0
    decreases |answers|
  {
    if |answers| == 0 then []
    else
      var k := MinKey(answers);
      var rest := answers - {k};
      assert rest.Keys == answers.Keys - {k};
      [(k, answers[k])] + SortedAnswers(rest)
  }

  /** Every recorded answer is listed, with its rating. */
  lemma SortedAnswersComplete(answers: map<int, int>, q: int)
    requires q in answers
    ensures exists i :: 0 <= i < |SortedAnswers(answers)| && SortedAnswers(answers)[i] == (q, answers[q])
  {
    var entries := SortedAnswers(answers);
    var listed := set i | 0 <= i < |entries| :: entries[i].0;
    // the listed numbers are distinct and all recorded, and there are as many as recorded ones
    assert |listed| == |entries| by {
      DistinctCount(entries);
    }
    if q !in listed {
      assert listed + {q} <= answers.Keys;
      SubsetCard(listed + {q}, answers.Keys);
      assert false;
    }
  }

  lemma {:induction false} SubsetCard(a: set<int>, b: set<int>)
    requires a <= b
    ensures |a| <= |b|
    decreases |b|
  {
    if |b| > 0 {
      NonEmptyHasElement(b);
      var x :| x in b;
      SubsetCard(a - {x}, b - {x});
    }
  }

  lemma {:induction false} DistinctCount(entries: seq<(int, int)>)
    requires forall i, j :: 0 <= i < j < |entries| ==> entries[i].0 < entries[j].0
    ensures |set i | 0 <= i < |entries| :: entries[i].0| == |entries|
    decreases |entries|
  {
    if |entries| > 0 {
      var init := entries[..|entries| - 1];
      DistinctCount(init);
      var s := set i | 0 <= i < |entries| :: entries[i].0;
      var t := set i | 0 <= i < |init| :: init[i].0;
      assert s == t + {entries[|entries| - 1].0};
      assert entries[|entries| - 1].0 !in t;
    }
  }

  /** The preview of a session: absent names read "N/A"; the session itself is not touched. */
  function PreviewOf(s: SessionState): (p: Preview)
    ensures p.username == (if s.currentUsername.Some? then s.currentUsername.value else "N/A")
    ensures p.trainer == (if s.selectedTrainerName.Some? then s.selectedTrainerName.value else "N/A")
    ensures p.moduleName == (if s.selectedModuleName.Some? then s.selectedModuleName.value else "N/A")
    ensures |p.answers| == |s.questionAnswers|
    ensures forall i, j :: 0 <= i < j < |p.answers| ==> p.answers[i].0 < p.answers[j].0
    ensures forall i :: 0 <= i < |p.answers| ==>
      p.answers[i].0 in s.questionAnswers && s.questionAnswers[p.answers[i].0] == p.answers[i].1
    ensures p.answers == SortedAnswers(s.questionAnswers)
  {
    Preview(s.currentUsername.GetOr("N/A"), s.selectedTrainerName.GetOr("N/A"),
            s.selectedModuleName.GetOr("N/A"), SortedAnswers(s.questionAnswers))
  }

  /** Submit opens the submission screen; Go Back only finishes the preview. */
  function OnButton(b: Button): (n: Navigation)
    ensures n == OpenSubmitScreen <==> b == Submit
  {
    match b
    case Submit => OpenSubmitScreen
    case GoBack => FinishScreen
  }
}
