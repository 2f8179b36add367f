/** The chat answer formatter (utils/formatText.jsx): `**bold**` markup, replaced by HTML in
    `formatText` and split into paragraphs and bold/plain segments in `formatTextToJSX`.
    Both follow the lazy pattern `\*\*(.*?)\*\*`, whose `.` does not cross a line terminator. */
module FormatText {
  import opened Base
  import opened Text

  /** Where the lazy `(.*?)\*\*` that starts at `j` closes: the first `**` at or after `j`,
      provided no line terminator comes before it. */
  function Close(s: string, j: nat): (r: Option<nat>)
    requires j <= |s|
    ensures r.Some? ==> j <= r.value && r.value + 2 <= |s| && s[r.value] == '*' && s[r.value + 1] == '*'
    ensures r.Some? ==> forall k :: j <= k < r.value ==> !IsLineTerminator(s[k])
    ensures r.Some? ==> forall k :: j <= k < r.value ==> !(s[k] == '*' && s[k + 1] == '*')
    decreases |s| - j
  {
    if j + 2 > |s| then None
    else if s[j] == '*' && s[j + 1] == '*' then Some(j)
    else if IsLineTerminator(s[j]) then None
    else Close(s, j + 1)
  }

  /** The pattern matches at the start of `s`. */
  predicate OpensBold(s: string)
  {
    |s| >= 2 && s[0] == '*' && s[1] == '*' && Close(s, 2).Some?
  }

  /** Where the match that starts at the beginning of `s` ends. */
  function MatchEnd(s: string): (e: nat)
    requires OpensBold(s)
    ensures 4 <= e <= |s|
  {
    Close(s, 2).value + 2
  }

  /** `formatText`: a global replace of the pattern by `<strong>$1</strong>`. Matches are found left to right,
      each one the shortest, and the search resumes after the closing marker. */
  function Format(s: string): (r: string)
    ensures |r| >= |s|
    ensures r == [] <==> s == []
    decreases |s|
  {
    if s == [] then []
    else if OpensBold(s) then
      var e := MatchEnd(s);
      "<strong>" + s[2..e - 2] + "</strong>" + Format(s[e..])
    else [s[0]] + Format(s[1..])
  }

  /** `s` holds the marker `**` somewhere. */
  predicate HasMarker(s: string)
  {
    exists i :: 0 <= i < |s| - 1 && s[i] == '*' && s[i + 1] == '*'
  }

  /** Text without `**` comes back unchanged. */
  lemma {:induction false} FormatWithoutMarkers(s: string)
    requires !HasMarker(s)
    ensures Format(s) == s
    decreases |s|
  {
    if s != [] {
      assert !OpensBold(s) by {
        if |s| >= 2 && s[0] == '*' && s[1] == '*' {
          assert HasMarker(s);
        }
      }
      FormatWithoutMarkers(s[1..]);
    }
  }

  /** `text.split('\n')`. */
  function SplitLines(s: string): (r: seq<string>)
    ensures |r| >= 1
    decreases |s|
  {
    if s == [] then [[]]
    else
      var rest := SplitLines(s[1..]);
      if s[0] == '\n' then [[]] + rest else [[s[0]] + rest[0]] + rest[1..]
  }

  function NewlineCount(s: string): nat
  {
    if s == [] then 0 else (if s[0] == '\n' then 1 else 0) + NewlineCount(s[1..])
  }

  /** Lines joined back with `\n`. */
  function JoinLines(ls: seq<string>): string
    requires |ls| >= 1
  {
    if |ls| == 1 then ls[0] else ls[0] + "\n" + JoinLines(ls[1..])
  }

  /** One paragraph per line: as many as there are newlines plus one, none holding a newline,
      and joined with newlines they give the text back. */
  lemma {:induction false} SplitLinesSound(s: string)
    ensures |SplitLines(s)| == NewlineCount(s) + 1
    ensures JoinLines(SplitLines(s)) == s
    ensures forall k :: 0 <= k < |SplitLines(s)| ==> '\n' !in SplitLines(s)[k]
    decreases |s|
  {
    if s != [] {
      SplitLinesSound(s[1..]);
      var rest := SplitLines(s[1..]);
      if s[0] == '\n' {
        assert SplitLines(s)[1..] == rest;
        assert s == [] + "\n" + s[1..];
      } else {
        var r := SplitLines(s);
        assert r[1..] == rest[1..];
        if |rest| == 1 {
          assert s == [s[0]] + rest[0];
        } else {
          assert JoinLines(rest) == rest[0] + "\n" + JoinLines(rest[1..]);
          assert s == ([s[0]] + rest[0]) + "\n" + JoinLines(rest[1..]);
        }
        forall k | 0 <= k < |r|
          ensures '\n' !in r[k]
        {
          if k > 0 {
            assert r[k] == rest[k];
          }
        }
      }
    }
  }

  /** `line.split(/(\*\*.*?\*\*)/g)`, scanning `s` with the plain text collected so far in
      `pending`: plain pieces and captured matches alternate, starting and ending with a plain
      piece (possibly empty). */
  function SplitFrom(pending: string, s: string): (r: seq<string>)
    ensures |r| % 2 == 1
    decreases |s|
  {
    if s == [] then [pending]
    else if OpensBold(s) then
      var e := MatchEnd(s);
      [pending, s[..e]] + SplitFrom([], s[e..])
    else SplitFrom(pending + [s[0]], s[1..])
  }

  function SplitBold(line: string): (r: seq<string>)
    ensures |r| % 2 == 1
  {
    SplitFrom([], line)
  }

  function Concat(ss: seq<string>): string
  {
    if ss == [] then [] else ss[0] + Concat(ss[1..])
  }

  lemma {:induction false} ConcatAppend(a: seq<string>, b: seq<string>)
    ensures Concat(a + b) == Concat(a) + Concat(b)
  {
    if a == [] {
      assert a + b == b;
    } else {
      assert (a + b)[1..] == a[1..] + b;
      ConcatAppend(a[1..], b);
    }
  }

  lemma {:induction false} SplitFromConcat(pending: string, s: string)
    ensures Concat(SplitFrom(pending, s)) == pending + s
    decreases |s|
  {
    if s == [] {
    } else if OpensBold(s) {
      var e := MatchEnd(s);
      SplitFromConcat([], s[e..]);
      ConcatAppend([pending, s[..e]], SplitFrom([], s[e..]));
      assert Concat([pending, s[..e]]) == pending + s[..e];
      assert s == s[..e] + s[e..];
    } else {
      SplitFromConcat(pending + [s[0]], s[1..]);
      assert s == [s[0]] + s[1..];
    }
  }

  /** The segments of a line give the line back: the capturing group keeps the matches. */
  lemma SplitBoldConcat(line: string)
    ensures Concat(SplitBold(line)) == line
  {
    SplitFromConcat([], line);
  }

  /** A captured match: it opens and closes with `**`, has room for both markers, and holds
      no line terminator. */
  predicate IsMatch(seg: string)
  {
    |seg| >= 4 && StartsWith(seg, "**") && EndsWith(seg, "**") &&
    forall k :: 2 <= k < |seg| - 2 ==> !IsLineTerminator(seg[k])
  }

  lemma {:induction false} SplitFromShape(pending: string, s: string)
    ensures forall i :: 0 <= i < |SplitFrom(pending, s)| && i % 2 == 1 ==> IsMatch(SplitFrom(pending, s)[i])
    decreases |s|
  {
    if s == [] {
    } else if OpensBold(s) {
      var e := MatchEnd(s);
      SplitFromShape([], s[e..]);
      var m := s[..e];
      assert m[..2] == "**" && m[|m| - 2..] == "**";
      var r := SplitFrom(pending, s);
      forall i | 0 <= i < |r| && i % 2 == 1
        ensures IsMatch(r[i])
      {
        if i > 1 {
          assert r[i] == SplitFrom([], s[e..])[i - 2];
        }
      }
    } else {
      SplitFromShape(pending + [s[0]], s[1..]);
    }
  }

  /** Every odd-numbered segment is a captured match. */
  lemma SplitBoldMatches(line: string)
    ensures forall i :: 0 <= i < |SplitBold(line)| && i % 2 == 1 ==> IsMatch(SplitBold(line)[i])
  {
    SplitFromShape([], line);
  }

  /** A rendered piece of a paragraph. */
  datatype Node = Plain(text: string) | Strong(text: string)

  /** `segment.slice(2, -2)`. */
  function Inner(seg: string): (r: string)
    ensures |seg| >= 4 ==> r == seg[2..|seg| - 2]
    ensures |seg| < 4 ==> r == []
  {
    if |seg| >= 4 then seg[2..|seg| - 2] else []
  }

  /** A segment renders bold exactly when it starts and ends with `**`. */
  function RenderSegment(seg: string): (n: Node)
    ensures n.Strong? <==> StartsWith(seg, "**") && EndsWith(seg, "**")
    ensures n.Strong? ==> n.text == Inner(seg)
    ensures n.Plain? ==> n.text == seg
  {
    if StartsWith(seg, "**") && EndsWith(seg, "**") then Strong(Inner(seg)) else Plain(seg)
  }

  function RenderLine(line: string): (r: seq<Node>)
    ensures |r| == |SplitBold(line)|
    ensures forall i :: 0 <= i < |r| ==> r[i] == RenderSegment(SplitBold(line)[i])
  {
    var segs := SplitBold(line);
    seq(|segs|, i requires 0 <= i < |segs| => RenderSegment(segs[i]))
  }

  /** `formatTextToJSX`: nothing for absent or empty text, otherwise one paragraph per line. */
  function FormatToJsx(text: Option<string>): (r: Option<seq<seq<Node>>>)
    ensures r.None? <==> text.None? || text.value == []
    ensures r.Some? ==> |r.value| == |SplitLines(text.value)| == NewlineCount(text.value) + 1
    ensures r.Some? ==> forall p :: 0 <= p < |r.value| ==> r.value[p] == RenderLine(SplitLines(text.value)[p])
  {
    if text.None? || text.value == [] then None
    else
      SplitLinesSound(text.value);
      var lines := SplitLines(text.value);
      Some(seq(|lines|, p requires 0 <= p < |lines| => RenderLine(lines[p])))
  }

  /** Captured matches always render bold, with the markers dropped. */
  lemma MatchesRenderBold(line: string, i: int)
    requires 0 <= i < |SplitBold(line)| && i % 2 == 1
    ensures var seg := SplitBold(line)[i];
      IsMatch(seg) && RenderLine(line)[i] == Strong(seg[2..|seg| - 2])
  {
    SplitBoldMatches(line);
  }

  /** A line that is only `**` or `***` is not a match, yet renders as one empty bold piece. */
  lemma BareMarkersRenderEmptyBold()
    ensures RenderLine("**") == [Strong([])]
    ensures RenderLine("***") == [Strong([])]
  {
    assert !OpensBold("**") && "**"[1..] == "*" && [] + ["**"[0]] == "*";
    assert SplitBold("**") == SplitFrom("*", "*");
    assert !OpensBold("*") && "*"[1..] == [] && "*" + ["*"[0]] == "**";
    assert SplitFrom("*", "*") == ["**"];
    assert Close("***", 2).None?;
    assert !OpensBold("***") && "***"[1..] == "**";
    assert SplitBold("***") == SplitFrom("*", "**");
    assert "**"[1..] == "*" && "*" + ["**"[0]] == "**";
    assert SplitFrom("*", "**") == SplitFrom("**", "*");
    assert "**" + ["*"[0]] == "***";
    assert SplitFrom("**", "*") == ["***"];
  }

  /** The HTML built from a line's segments: each match's markers become `<strong>` tags. */
  function Markup(segs: seq<string>): (r: string)
    requires |segs| % 2 == 1
    ensures |r| >= |segs[0]| + 17 * (|segs| / 2)
  {
    if |segs| == 1 then segs[0]
    else segs[0] + "<strong>" + Inner(segs[1]) + "</strong>" + Markup(segs[2..])
  }

  /** One match: the segments gain the plain text before it and the match itself. */
  lemma FormatAgreesAtMatch(pending: string, s: string)
    requires OpensBold(s)
    requires Markup(SplitFrom([], s[MatchEnd(s)..])) == Format(s[MatchEnd(s)..])
    ensures Markup(SplitFrom(pending, s)) == pending + Format(s)
  {
    var e := MatchEnd(s);
    var rest := SplitFrom([], s[e..]);
    var bold := "<strong>" + s[2..e - 2] + "</strong>";
    var f := Format(s[e..]);
    var r := SplitFrom(pending, s);
    assert r == [pending, s[..e]] + rest;
    assert |r| > 1 && r[0] == pending && r[1] == s[..e] && r[2..] == rest;
    assert Inner(s[..e]) == s[2..e - 2];
    assert Markup(r) == pending + bold + f;
    assert Format(s) == bold + f;
  }

  lemma {:induction false} FormatAgreesFrom(pending: string, s: string)
    ensures Markup(SplitFrom(pending, s)) == pending + Format(s)
    decreases |s|
  {
    if s == [] {
    } else if OpensBold(s) {
      FormatAgreesFrom([], s[MatchEnd(s)..]);
      FormatAgreesAtMatch(pending, s);
    } else {
      FormatAgreesFrom(pending + [s[0]], s[1..]);
      assert (pending + [s[0]]) + Format(s[1..]) == pending + ([s[0]] + Format(s[1..]));
    }
  }

  /** `formatText` and `formatTextToJSX` find the same matches: the HTML of a line is its
      segments with the markers of each match replaced by tags. */
  lemma FormatAgreesWithSplit(line: string)
    ensures Format(line) == Markup(SplitBold(line))
  {
    FormatAgreesFrom([], line);
  }
}
