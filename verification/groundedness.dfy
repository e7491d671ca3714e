/** utils/groundedness.py: redaction of the answer passages a groundedness
    service flags as unsupported by the sources.  The HTTP call is an input:
    `Response` is the status and the decoded body. */
module Groundedness {
  import opened Strings
  import Seqs

  /** One flagged passage: a start offset and a length. */
  datatype Detail = Detail(offset: int, length: int)

  datatype Response = Response(
    status: int, ungroundedDetected: bool, ungroundedPercentage: real, details: seq<Detail>)

  const RedactionThreshold: real := 0.25

  function Clamp(i: int, n: nat): (r: nat)
    ensures r <= n
  {
    if i < 0 then (if i + n < 0 then 0 else i + n) else if i > n then n else i
  }

  /** Python's `s[a:b]`: negative bounds count from the end, bounds are
      clamped to the string, and an empty range gives "". */
  function PySlice(s: string, a: int, b: int): (r: string)
    ensures |r| <= |s|
    ensures 0 <= a <= b <= |s| ==> r == s[a..b]
    ensures 0 <= a <= |s| <= b ==> r == s[a..]
    ensures 0 <= a && (0 <= b <= a || |s| <= a) ==> r == ""
  {
    var lo := Clamp(a, |s|);
    var hi := Clamp(b, |s|);
    if hi <= lo then "" else s[lo..hi]
  }

  /** A negative bound counts from the end of `s`, and one below `-|s|`
      stands for the start. */
  lemma PySliceNegativeBounds(s: string, a: int, b: int)
    ensures -|s| <= a < 0 ==> PySlice(s, a, b) == PySlice(s, a + |s|, b)
    ensures a < -|s| ==> PySlice(s, a, b) == PySlice(s, 0, b)
    ensures -|s| <= b < 0 ==> PySlice(s, a, b) == PySlice(s, a, b + |s|)
    ensures b < -|s| ==> PySlice(s, a, b) == ""
  {
  }

  /** `s.replace(p, "")`: every non-overlapping occurrence of `p`, found left
      to right, is removed; an empty `p` changes nothing. */
  function RemoveAll(s: string, p: string): (r: string)
    ensures |r| <= |s|
    ensures Seqs.IsSubsequence(r, s)
    decreases |s|
  {
    if |p| == 0 || |s| < |p| then (Seqs.SubsequenceRefl(s); s)
    else if s[..|p|] == p then (Seqs.SubsequenceOfSuffix(RemoveAll(s[|p|..], p), s, |p|); RemoveAll(s[|p|..], p))
    else (var rest := RemoveAll(s[1..], p); assert ([s[0]] + rest)[1..] == rest; [s[0]] + rest)
  }

  lemma {:induction false} RemoveAllAbsent(s: string, p: string)
    requires !Contains(s, p)
    ensures RemoveAll(s, p) == s
  {
    if |p| > 0 && |s| >= |p| {
      assert !OccursAt(s, p, 0);
      assert !Contains(s[1..], p) by {
        forall i | 0 <= i && i + |p| <= |s| - 1 ensures !OccursAt(s[1..], p, i) {
          assert !OccursAt(s, p, i + 1);
          assert s[1..][i..i + |p|] == s[i + 1..i + 1 + |p|];
        }
      }
      RemoveAllAbsent(s[1..], p);
    }
  }

  /** A non-empty pattern that occurs is removed at least once. */
  lemma {:induction false} RemoveAllShrinks(s: string, p: string, i: nat)
    requires |p| > 0 && OccursAt(s, p, i)
    ensures |RemoveAll(s, p)| <= |s| - |p|
    decreases i
  {
    if s[..|p|] != p {
      assert i > 0;
      assert OccursAt(s[1..], p, i - 1) by {
        assert s[1..][i - 1..i - 1 + |p|] == s[i..i + |p|];
      }
      RemoveAllShrinks(s[1..], p, i - 1);
    }
  }

  /** One iteration of the loop: slice the current text at the detail's
      offsets and remove every occurrence of the slice. */
  function RedactStep(text: string, d: Detail): (r: string)
    ensures |r| <= |text|
    ensures Seqs.IsSubsequence(r, text)
  {
    RemoveAll(text, PySlice(text, d.offset, d.offset + d.length))
  }

  /** The loop of `detect_groundness` as written: each detail is applied to
      the text the previous ones left. */
  function RedactAsWritten(text: string, details: seq<Detail>): (r: string)
    ensures |r| <= |text|
    decreases |details|
  {
    if |details| == 0 then text else RedactAsWritten(RedactStep(text, details[0]), details[1..])
  }

  /** A detail that starts at or past the end, or whose end does not pass
      its start without wrapping below zero, selects the empty slice. */
  predicate Inert(d: Detail, n: nat) {
    d.offset >= 0 && (d.offset >= n || (d.length <= 0 && d.offset + d.length >= 0))
  }

  lemma {:induction false} InertDetailsKeepText(text: string, details: seq<Detail>)
    requires forall k :: 0 <= k < |details| ==> Inert(details[k], |text|)
    ensures RedactAsWritten(text, details) == text
  {
    if |details| > 0 {
      var d := details[0];
      assert PySlice(text, d.offset, d.offset + d.length) == "";
      assert RedactStep(text, d) == text;
      InertDetailsKeepText(text, details[1..]);
    }
  }

  /** A single in-range detail removes at least its own passage. */
  lemma SingleDetailRemovesSpan(text: string, d: Detail)
    requires 0 <= d.offset && 0 < d.length && d.offset + d.length <= |text|
    ensures |RedactAsWritten(text, [d])| <= |text| - d.length
  {
    var span := text[d.offset..d.offset + d.length];
    assert OccursAt(text, span, d.offset);
    RemoveAllShrinks(text, span, d.offset);
    assert [d][1..] == [];
  }

  /** Redaction applies only to a successful response that reports
      ungrounded content at or above the threshold. */
  predicate Redacts(response: Response) {
    response.status == 200 && response.ungroundedDetected
    && response.ungroundedPercentage >= RedactionThreshold
  }

  /** `detect_groundness` as written. */
  function DetectGroundednessAsWritten(text: string, response: Response): (r: string)
    ensures !Redacts(response) ==> r == text
    ensures |r| <= |text|
  {
    if Redacts(response) then RedactAsWritten(text, response.details) else text
  }

  lemma DriftFirstStep()
    ensures RedactStep("abcdef", Detail(0, 2)) == "cdef"
  {
    assert PySlice("abcdef", 0, 2) == "ab";
    assert "abcdef"[..2] == "ab" && "abcdef"[2..] == "cdef";
    assert !Contains("cdef", "ab") by {
      forall i | 0 <= i <= 2 ensures !OccursAt("cdef", "ab", i) {
        assert "cdef"[i..i + 2][0] == "cdef"[i] != 'a';
      }
    }
    RemoveAllAbsent("cdef", "ab");
  }

  lemma DriftSecondStep()
    ensures RedactStep("cdef", Detail(2, 2)) == "cd"
  {
    assert PySlice("cdef", 2, 4) == "ef";
    assert "cdef"[..2] != "ef" && "cdef"[1..] == "def";
    assert "def"[..2] != "ef" && "def"[1..] == "ef";
    assert "ef"[..2] == "ef" && "ef"[2..] == "";
    assert RemoveAll("ef", "ef") == "";
    assert RemoveAll("def", "ef") == "d";
  }

  /** The second detail is sliced from the text the first already
      shortened, so it removes the wrong passage. */
  lemma RedactDriftExample()
    ensures RedactAsWritten("abcdef", [Detail(0, 2), Detail(2, 2)]) == "cd"
  {
    DriftFirstStep();
    DriftSecondStep();
    assert [Detail(0, 2), Detail(2, 2)][1..] == [Detail(2, 2)];
    assert [Detail(2, 2)][1..] == [];
  }

  /** Every occurrence of the flagged passage is removed, not only the
      flagged one. */
  lemma RedactRepeatExample()
    ensures RedactAsWritten("abab", [Detail(0, 2)]) == ""
  {
    assert PySlice("abab", 0, 2) == "ab";
    assert "abab"[..2] == "ab" && "abab"[2..] == "ab";
    assert "ab"[..2] == "ab" && "ab"[2..] == "";
    assert RedactStep("abab", Detail(0, 2)) == "";
    assert [Detail(0, 2)][1..] == [];
  }

  /** Position `i` of the answer lies in some flagged passage. */
  predicate Covered(details: seq<Detail>, i: int) {
    exists k :: 0 <= k < |details| && details[k].offset <= i < details[k].offset + details[k].length
  }

  function KeptFrom(text: string, details: seq<Detail>, i: nat): (r: string)
    requires i <= |text|
    ensures |r| <= |text| - i
    decreases |text| - i
  {
    if i == |text| then ""
    else (if Covered(details, i) then "" else [text[i]]) + KeptFrom(text, details, i + 1)
  }

  /** The intended redaction: remove exactly the flagged passages of the
      answer the service judged, all offsets referring to that answer.
      Exactly one character is removed per flagged position. */
  function RedactSpans(text: string, details: seq<Detail>): (r: string)
    ensures |r| <= |text|
    ensures |r| == |text| - CoveredCount(text, details, 0)
  {
    KeptFromLength(text, details, 0);
    KeptFrom(text, details, 0)
  }

  /** The number of positions of `text`, from `i` on, in a flagged passage. */
  function CoveredCount(text: string, details: seq<Detail>, i: nat): (n: nat)
    requires i <= |text|
    decreases |text| - i
  {
    if i == |text| then 0 else (if Covered(details, i) then 1 else 0) + CoveredCount(text, details, i + 1)
  }

  lemma {:induction false} KeptFromLength(text: string, details: seq<Detail>, i: nat)
    requires i <= |text|
    ensures |KeptFrom(text, details, i)| == |text| - i - CoveredCount(text, details, i)
    decreases |text| - i
  {
    if i < |text| {
      KeptFromLength(text, details, i + 1);
    }
  }

  /** An unflagged position in front of a kept run joins the run. */
  lemma KeptUncoveredHead(text: string, details: seq<Detail>, i: nat, j: nat)
    requires i < j <= |text| && !Covered(details, i)
    requires KeptFrom(text, details, i + 1) == text[i + 1..j] + KeptFrom(text, details, j)
    ensures KeptFrom(text, details, i) == text[i..j] + KeptFrom(text, details, j)
  {
    var run, later := text[i + 1..j], KeptFrom(text, details, j);
    assert KeptFrom(text, details, i) == [text[i]] + (run + later);
    assert text[i..j] == [text[i]] + run;
    assert [text[i]] + (run + later) == ([text[i]] + run) + later;
  }

  /** A run of unflagged positions is kept as it stands. */
  lemma {:induction false} KeptFromUncoveredRun(text: string, details: seq<Detail>, i: nat, j: nat)
    requires i <= j <= |text|
    requires forall k :: i <= k < j ==> !Covered(details, k)
    ensures KeptFrom(text, details, i) == text[i..j] + KeptFrom(text, details, j)
    decreases j - i
  {
    if i < j {
      KeptFromUncoveredRun(text, details, i + 1, j);
      KeptUncoveredHead(text, details, i, j);
    }
  }

  /** What is kept from a later position ends what is kept from an earlier
      one. */
  lemma {:induction false} KeptFromSuffix(text: string, details: seq<Detail>, i: nat, j: nat)
    requires i <= j <= |text|
    ensures exists pre :: KeptFrom(text, details, i) == pre + KeptFrom(text, details, j)
    decreases j - i
  {
    if i == j {
      assert KeptFrom(text, details, i) == [] + KeptFrom(text, details, j);
    } else {
      KeptFromSuffix(text, details, i + 1, j);
      var pre :| KeptFrom(text, details, i + 1) == pre + KeptFrom(text, details, j);
      var head := if Covered(details, i) then "" else [text[i]];
      assert KeptFrom(text, details, i) == (head + pre) + KeptFrom(text, details, j);
    }
  }

  /** A passage none of whose positions is flagged survives the intended
      redaction, even when the same text is flagged elsewhere. */
  lemma UncoveredPassageKept(text: string, details: seq<Detail>, lo: nat, hi: nat)
    requires lo <= hi <= |text|
    requires forall k :: lo <= k < hi ==> !Covered(details, k)
    ensures Contains(RedactSpans(text, details), text[lo..hi])
  {
    KeptFromSuffix(text, details, 0, lo);
    KeptFromUncoveredRun(text, details, lo, hi);
    var pre :| KeptFrom(text, details, 0) == pre + KeptFrom(text, details, lo);
    var r := RedactSpans(text, details);
    assert r == pre + text[lo..hi] + KeptFrom(text, details, hi);
    assert r[|pre|..|pre| + (hi - lo)] == text[lo..hi];
    assert OccursAt(r, text[lo..hi], |pre|);
  }

  /** Flagging the first "ab" of "abab" removes that passage only. */
  lemma RedactSpansRepeatExample()
    ensures RedactSpans("abab", [Detail(0, 2)]) == "ab"
  {
    var ds := [Detail(0, 2)];
    assert ds[0].offset <= 0 < 1 < ds[0].offset + ds[0].length;
    assert Covered(ds, 0) && Covered(ds, 1);
    assert !Covered(ds, 2) && !Covered(ds, 3);
    KeptAllWhenUncovered("abab", ds, 2);
    assert "abab"[2..] == "ab";
  }

  /** Nothing flagged, nothing removed. */
  lemma {:induction false} KeptAllWhenUncovered(text: string, details: seq<Detail>, i: nat)
    requires i <= |text|
    requires forall j :: i <= j < |text| ==> !Covered(details, j)
    ensures KeptFrom(text, details, i) == text[i..]
    decreases |text| - i
  {
    if i < |text| {
      KeptAllWhenUncovered(text, details, i + 1);
      assert [text[i]] + text[i + 1..] == text[i..];
    }
  }

  lemma {:induction false} KeptFromCongruent(text: string, a: seq<Detail>, b: seq<Detail>, i: nat)
    requires i <= |text|
    requires forall j :: i <= j < |text| ==> (Covered(a, j) <==> Covered(b, j))
    ensures KeptFrom(text, a, i) == KeptFrom(text, b, i)
    decreases |text| - i
  {
    if i < |text| {
      var same := Covered(a, i) <==> Covered(b, i);
      assert same;
      KeptFromCongruent(text, a, b, i + 1);
      assert KeptFrom(text, a, i) == (if Covered(a, i) then "" else [text[i]]) + KeptFrom(text, a, i + 1);
      assert KeptFrom(text, b, i) == (if Covered(b, i) then "" else [text[i]]) + KeptFrom(text, b, i + 1);
    }
  }

  /** The intended redaction does not depend on the order of the details,
      which the loop as written does. */
  lemma RedactSpansOrderIrrelevant(text: string, a: seq<Detail>, b: seq<Detail>)
    ensures RedactSpans(text, a + b) == RedactSpans(text, b + a)
  {
    forall j | 0 <= j < |text| ensures Covered(a + b, j) <==> Covered(b + a, j) {
      if Covered(a + b, j) {
        var k :| 0 <= k < |a + b| && (a + b)[k].offset <= j < (a + b)[k].offset + (a + b)[k].length;
        if k < |a| {
          assert (b + a)[|b| + k] == a[k];
        } else {
          assert (b + a)[k - |a|] == b[k - |a|];
        }
      }
      if Covered(b + a, j) {
        var k :| 0 <= k < |b + a| && (b + a)[k].offset <= j < (b + a)[k].offset + (b + a)[k].length;
        if k < |b| {
          assert (a + b)[|a| + k] == b[k];
        } else {
          assert (a + b)[k - |b|] == a[k - |b|];
        }
      }
    }
    KeptFromCongruent(text, a + b, b + a, 0);
  }

  /** Removing the passages [0, 2) and [2, 4) of "abcdef" leaves "ef". */
  lemma RedactSpansExample()
    ensures RedactSpans("abcdef", [Detail(0, 2), Detail(2, 2)]) == "ef"
  {
    var ds := [Detail(0, 2), Detail(2, 2)];
    assert ds[0].offset <= 0 < 1 < ds[0].offset + ds[0].length;
    assert ds[1].offset <= 2 < 3 < ds[1].offset + ds[1].length;
    assert Covered(ds, 0) && Covered(ds, 1) && Covered(ds, 2) && Covered(ds, 3);
    assert !Covered(ds, 4) && !Covered(ds, 5);
    KeptAllWhenUncovered("abcdef", ds, 4);
    assert "abcdef"[4..] == "ef";
  }

  /** `detect_groundness` with the intended redaction. */
  function DetectGroundedness(text: string, response: Response): (r: string)
    ensures !Redacts(response) ==> r == text
    ensures |r| <= |text|
    ensures (forall i :: 0 <= i < |text| ==> !Covered(response.details, i)) ==> r == text
    ensures Redacts(response) ==> |r| == |text| - CoveredCount(text, response.details, 0)
    ensures Redacts(response) ==>
              forall lo, hi :: 0 <= lo <= hi <= |text| && (forall k :: lo <= k < hi ==> !Covered(response.details, k))
                ==> Contains(r, text[lo..hi])
  {
    if Redacts(response) then
      RedactSpansKeepsUncovered(text, response.details);
      forall lo, hi | 0 <= lo <= hi <= |text| && (forall k :: lo <= k < hi ==> !Covered(response.details, k))
        ensures Contains(RedactSpans(text, response.details), text[lo..hi])
      {
        UncoveredPassageKept(text, response.details, lo, hi);
      }
      RedactSpans(text, response.details)
    else text
  }

  lemma RedactSpansKeepsUncovered(text: string, details: seq<Detail>)
    ensures (forall i :: 0 <= i < |text| ==> !Covered(details, i)) ==> RedactSpans(text, details) == text
  {
    if forall i :: 0 <= i < |text| ==> !Covered(details, i) {
      KeptAllWhenUncovered(text, details, 0);
    }
  }
}
