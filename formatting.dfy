/**
 * The text the session screens show for motions: durations, motion type
 * labels and the proposer line. The dashboard and the active-motion screen
 * each carry their own copy of these helpers, with the same code; the model
 * defines them once.
 */
module Formatting {
  import opened Wrappers
  import opened Types
  import opened Text

  /** `formatTime` of the dashboard and the active-motion screen: seconds under a minute,
      whole minutes, or minutes and the seconds left over. */
  function FormatDuration(seconds: int): string {
    if seconds >= 60 then
      var minutes := seconds / 60;
      var remainingSeconds := seconds % 60;
      if remainingSeconds == 0 then NatToString(minutes) + "min"
      else NatToString(minutes) + "min " + NatToString(remainingSeconds) + "s"
    else IntToString(seconds) + "s"
  }

  /** The number a duration text starts with: seconds, or whole minutes from a minute on. */
  function DurationLead(seconds: int): nat {
    if seconds < 0 then -seconds else if seconds >= 60 then seconds / 60 else seconds
  }

  /** What follows that number. */
  function DurationTail(seconds: int): string {
    if seconds < 60 then "s"
    else if seconds % 60 == 0 then "min"
    else "min " + NatToString(seconds % 60) + "s"
  }

  lemma DurationShape(seconds: int)
    ensures FormatDuration(seconds) ==
              (if seconds < 0 then "-" else "") + (NatToString(DurationLead(seconds)) + DurationTail(seconds))
    ensures DurationTail(seconds) != [] && !IsDigit(DurationTail(seconds)[0])
    ensures DurationTail(seconds)[0] == 's' <==> seconds < 60
    ensures |DurationTail(seconds)| == 3 <==> seconds >= 60 && seconds % 60 == 0
  {
    if seconds >= 60 && seconds % 60 != 0 {
      var m, rest := NatToString(seconds / 60), NatToString(seconds % 60);
      assert m + "min " + rest + "s" == m + ("min " + rest + "s");
    } else if seconds < 0 {
      assert "-" + NatToString(-seconds) + "s" == "-" + (NatToString(-seconds) + "s");
    }
  }

  /** A duration text starts with a minus sign exactly when the duration is negative. */
  lemma DurationSign(seconds: int)
    ensures FormatDuration(seconds) != [] && (FormatDuration(seconds)[0] == '-' <==> seconds < 0)
  {
    DurationShape(seconds);
    var lead := NatToString(DurationLead(seconds));
    assert (lead + DurationTail(seconds))[0] == lead[0];
  }

  /** Different durations are shown differently, so the text determines the duration. */
  lemma FormatDurationInjective(a: int, b: int)
    ensures FormatDuration(a) == FormatDuration(b) <==> a == b
  {
    if FormatDuration(a) == FormatDuration(b) {
      DurationSign(a);
      DurationSign(b);
      DurationShape(a);
      DurationShape(b);
      var la, lb := NatToString(DurationLead(a)), NatToString(DurationLead(b));
      var ta, tb := DurationTail(a), DurationTail(b);
      if a < 0 && b < 0 {
        assert la + ta == ("-" + (la + ta))[1..];
        assert lb + tb == ("-" + (lb + tb))[1..];
        NumberPrefixUnique(DurationLead(a), DurationLead(b), ta, tb);
      } else if a >= 0 && b >= 0 {
        assert [] + (la + ta) == la + ta && [] + (lb + tb) == lb + tb;
        NumberPrefixUnique(DurationLead(a), DurationLead(b), ta, tb);
        assert a == 60 * (a / 60) + a % 60;
        assert b == 60 * (b / 60) + b % 60;
        if a >= 60 && b >= 60 && a % 60 != 0 && b % 60 != 0 {
          assert NatToString(a % 60) == ta[4..|ta| - 1];
          assert NatToString(b % 60) == tb[4..|tb| - 1];
          NatToStringInjective(a % 60, b % 60);
        }
      }
    }
  }

  /** The characters `\w` matches in a JavaScript regular expression. */
  predicate IsWordChar(c: char) {
    ('a' <= c <= 'z') || ('A' <= c <= 'Z') || ('0' <= c <= '9') || c == '_'
  }

  /** `s.indexOf(c)`, with `None` for -1. */
  function IndexOf(s: string, c: char): (r: Option<nat>)
    ensures r.None? <==> c !in s
    ensures r.Some? ==> r.value < |s| && s[r.value] == c && c !in s[..r.value]
  {
    if s == [] then None
    else if s[0] == c then
      assert s[..0] == [];
      Some(0)
    else
      match IndexOf(s[1..], c)
      case None => None
      case Some(i) =>
        assert s[..i + 1] == [s[0]] + s[1..][..i];
        Some(i + 1)
  }

  /** `s.replace(from, to)` with a one-character string pattern: only the first occurrence is
      replaced. */
  function ReplaceFirst(s: string, from: char, to: char): (r: string)
    ensures |r| == |s|
    ensures from !in s ==> r == s
    ensures forall i :: 0 <= i < |s| && s[i] == from && from !in s[..i] ==> r == s[i := to]
  {
    match IndexOf(s, from)
    case None => s
    case Some(i) => s[i := to]
  }

  /** `s.replace(/\b\w/g, l => l.toUpperCase())`: a word character with no word character
      before it is upper-cased. */
  function CapitalizeWords(s: string): (r: string)
    ensures |r| == |s|
  {
    seq(|s|, i requires 0 <= i < |s| =>
      if IsWordChar(s[i]) && (i == 0 || !IsWordChar(s[i - 1])) then UpperChar(s[i]) else s[i])
  }

  /** `formatMotionType`. */
  function FormatMotionType(tag: string): string {
    CapitalizeWords(ReplaceFirst(tag, '_', ' '))
  }

  /** A tag of two lower-case words joined by one underscore is shown as the two words with
      their first letters capitalized, separated by a space. */
  lemma LabelOfTwoWordTag(tag: string, first: string, second: string)
    requires tag == first + "_" + second
    requires first != [] && second != []
    requires forall i :: 0 <= i < |first| ==> 'a' <= first[i] <= 'z'
    requires forall i :: 0 <= i < |second| ==> 'a' <= second[i] <= 'z'
    ensures FormatMotionType(tag) ==
              [UpperChar(first[0])] + first[1..] + " " + [UpperChar(second[0])] + second[1..]
  {
    var k := |first|;
    assert tag[..k] == first;
    var spaced := ReplaceFirst(tag, '_', ' ');
    assert spaced == tag[k := ' '];
    var r := CapitalizeWords(spaced);
    var expected := [UpperChar(first[0])] + first[1..] + " " + [UpperChar(second[0])] + second[1..];
    assert |r| == |expected|;
    forall i | 0 <= i < |r| ensures r[i] == expected[i] {
      if i < k {
        assert spaced[i] == first[i];
      } else if i > k {
        assert spaced[i] == second[i - k - 1];
      }
    }
  }

  /** Word characters that follow a word character are never capitalized. */
  lemma CapitalizeAfterWordChar(p: string, t: string)
    requires p != [] && IsWordChar(p[|p| - 1])
    requires forall i :: 0 <= i < |t| ==> IsWordChar(t[i])
    ensures CapitalizeWords(p + t) == CapitalizeWords(p) + t
  {
    var s := p + t;
    forall i | 0 <= i < |s| ensures CapitalizeWords(s)[i] == (CapitalizeWords(p) + t)[i] {
      if i < |p| {
        assert s[i] == p[i];
        if i > 0 {
          assert s[i - 1] == p[i - 1];
        }
      } else {
        assert s[i] == t[i - |p|];
        assert s[i - 1] == if i == |p| then p[|p| - 1] else t[i - |p| - 1];
      }
    }
  }

  /** Only the first underscore of a tag becomes a space: the one after its lower-case first word. */
  lemma SpacedAfterFirstWord(first: string, rest: string)
    requires forall i :: 0 <= i < |first| ==> 'a' <= first[i] <= 'z'
    ensures ReplaceFirst(first + "_" + rest, '_', ' ') == first + " " + rest
  {
    var tag, k := first + "_" + rest, |first|;
    assert tag[k] == '_' && tag[..k] == first;
    assert tag[k := ' '] == first + " " + rest;
  }

  /** The underscore and the lower-case letters after it are all word characters. */
  lemma UnderscoreWordIsWordChars(third: string)
    requires forall i :: 0 <= i < |third| ==> 'a' <= third[i] <= 'z'
    ensures forall i :: 0 <= i < |"_" + third| ==> IsWordChar(("_" + third)[i])
  {
    forall i | 0 <= i < |"_" + third| ensures IsWordChar(("_" + third)[i]) {
      if i > 0 {
        assert ("_" + third)[i] == third[i - 1];
      }
    }
  }

  /** In a tag of three lower-case words joined by underscores only the first underscore becomes
      a space, and the third word is not capitalized, since `_` is itself a word character. */
  lemma OnlyFirstUnderscoreReplaced(tag: string, first: string, second: string, third: string)
    requires tag == first + "_" + second + "_" + third
    requires first != [] && second != []
    requires forall i :: 0 <= i < |first| ==> 'a' <= first[i] <= 'z'
    requires forall i :: 0 <= i < |second| ==> 'a' <= second[i] <= 'z'
    requires forall i :: 0 <= i < |third| ==> 'a' <= third[i] <= 'z'
    ensures FormatMotionType(tag) ==
              [UpperChar(first[0])] + first[1..] + " " + [UpperChar(second[0])] + second[1..] + "_" + third
  {
    var spacedPair := first + " " + second;
    assert tag == first + "_" + (second + "_" + third);
    SpacedAfterFirstWord(first, second + "_" + third);
    assert first + " " + (second + "_" + third) == spacedPair + ("_" + third);
    SpacedAfterFirstWord(first, second);
    LabelOfTwoWordTag(first + "_" + second, first, second);
    assert spacedPair[|spacedPair| - 1] == second[|second| - 1];
    UnderscoreWordIsWordChars(third);
    CapitalizeAfterWordChar(spacedPair, "_" + third);
  }

  /** "Proposed by: {name} ({delegate})" for the first delegate whose id is the proposer; with
      no such delegate both names render as nothing. */
  function ProposerLine(delegates: seq<Delegate>, proposer: string): (r: string)
    ensures DelegateById(delegates, proposer).None? ==> r == "Proposed by:  ()"
    ensures forall i :: 0 <= i < |delegates| && delegates[i].id == proposer
                        && (forall j :: 0 <= j < i ==> delegates[j].id != proposer) ==>
              r == "Proposed by: " + delegates[i].delegationName + " (" + delegates[i].delegateName + ")"
  {
    match DelegateById(delegates, proposer)
    case Some(d) => "Proposed by: " + d.delegationName + " (" + d.delegateName + ")"
    case None => "Proposed by:  ()"
  }
}
