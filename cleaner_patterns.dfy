/**
 * The regular-expression rewrites of the document cleaner
 * (fastapi_backend/helpers/document_cleaner.py, `clean_code_artifacts` and
 * `remove_noise_patterns`), each written out as the left-to-right scan that
 * Python's `re.sub` performs for that particular pattern.
 */
module CleanerPatterns {
  import opened Wrappers
  import opened Sequences
  import opened Text

  // ---------------------------------------------------------------------
  // Runs of one character: `re.sub(r'[!]{4,}', '!!!', s)` and the same for `?`

  /** How many copies of `c` the string `s` starts with. */
  function LeadCount(s: string, c: char): (n: nat)
    ensures n <= |s|
    ensures forall i :: 0 <= i < n ==> s[i] == c
    ensures n < |s| ==> s[n] != c
    decreases |s|
  {
    if s == [] || s[0] != c then 0 else 1 + LeadCount(s[1..], c)
  }

  /**
   * No run of `c` in `s` is longer than three, counting the `pending` copies
   * of `c` that come right before `s`.
   */
  predicate RunsCapped(s: string, c: char, pending: nat)
    decreases |s|
  {
    if s == [] then true
    else if s[0] == c then pending < 3 && RunsCapped(s[1..], c, pending + 1)
    else RunsCapped(s[1..], c, 0)
  }

  /** `s` holds no four consecutive copies of `c`. */
  predicate NoLongRun(s: string, c: char)
  {
    RunsCapped(s, c, 0)
  }

  function Repeat(c: char, n: nat): (r: string)
    ensures |r| == n
    ensures forall i :: 0 <= i < n ==> r[i] == c
  {
    seq(n, _ => c)
  }

  /** `s` with every `c` deleted. */
  function Erase(s: string, c: char): string
    decreases |s|
  {
    if s == [] then [] else (if s[0] == c then [] else [s[0]]) + Erase(s[1..], c)
  }

  /** A run of at most three `c`, followed by a non-`c`, keeps the runs capped. */
  lemma {:induction false} CappedAfterRun(run: string, rest: string, c: char, pending: nat)
    requires forall i :: 0 <= i < |run| ==> run[i] == c
    requires pending + |run| <= 3
    requires rest == [] || rest[0] != c
    requires RunsCapped(rest, c, 0)
    ensures RunsCapped(run + rest, c, pending)
    decreases |run|
  {
    if run == [] {
      assert run + rest == rest;
    } else {
      assert (run + rest)[1..] == run[1..] + rest;
      CappedAfterRun(run[1..], rest, c, pending + 1);
    }
  }

  /**
   * The scan of `[c]{4,}`: at the start of a run of `c`, a run of four or
   * more becomes exactly three copies and a shorter one is kept; scanning
   * resumes after the run.
   */
  function CollapseRuns(s: string, c: char): (r: string)
    ensures NoLongRun(r, c)
    ensures s != [] && s[0] != c ==> r != [] && r[0] == s[0]
    decreases |s|
  {
    if s == [] then []
    else if s[0] != c then
      var rest := CollapseRuns(s[1..], c);
      assert ([s[0]] + rest)[1..] == rest;
      [s[0]] + rest
    else
      var n := LeadCount(s, c);
      var run := if n >= 4 then Repeat(c, 3) else s[..n];
      var rest := CollapseRuns(s[n..], c);
      CappedAfterRun(run, rest, c, 0);
      run + rest
  }

  /**
   * A whole run of `n` copies of `c` becomes exactly three copies when
   * `n >= 4` and stays as it is otherwise; what follows the run is scanned on.
   */
  lemma RunCollapse(c: char, n: nat, rest: string)
    requires n > 0
    requires rest == [] || rest[0] != c
    ensures CollapseRuns(Repeat(c, n) + rest, c) ==
            (if n >= 4 then Repeat(c, 3) else Repeat(c, n)) + CollapseRuns(rest, c)
  {
    var s := Repeat(c, n) + rest;
    assert LeadCount(s, c) == n;
    assert s[..n] == Repeat(c, n);
    assert s[n..] == rest;
  }

  lemma {:induction false} EraseAppend(a: string, b: string, c: char)
    ensures Erase(a + b, c) == Erase(a, c) + Erase(b, c)
    decreases |a|
  {
    if a == [] {
      assert a + b == b;
    } else {
      assert (a + b)[0] == a[0];
      assert (a + b)[1..] == a[1..] + b;
      EraseAppend(a[1..], b, c);
    }
  }

  lemma {:induction false} EraseRun(run: string, c: char)
    requires forall i :: 0 <= i < |run| ==> run[i] == c
    ensures Erase(run, c) == []
    decreases |run|
  {
    if run != [] {
      EraseRun(run[1..], c);
    }
  }

  /** Collapsing touches nothing but the copies of `c`. */
  lemma {:induction false} CollapseKeepsOtherChars(s: string, c: char)
    ensures Erase(CollapseRuns(s, c), c) == Erase(s, c)
    decreases |s|
  {
    if s != [] {
      CollapseKeepsOtherChars(s[1..], c);
      if s[0] != c {
        assert ([s[0]] + CollapseRuns(s[1..], c))[1..] == CollapseRuns(s[1..], c);
      } else {
        var n := LeadCount(s, c);
        var run := if n >= 4 then Repeat(c, 3) else s[..n];
        CollapseKeepsOtherChars(s[n..], c);
        EraseAppend(run, CollapseRuns(s[n..], c), c);
        EraseRun(run, c);
        assert s == s[..n] + s[n..];
        EraseAppend(s[..n], s[n..], c);
        EraseRun(s[..n], c);
      }
    }
  }

  /** Under the cap, the leading run fits with what came before it, and the cap restarts after it. */
  lemma {:induction false} CappedSkipRun(s: string, c: char, pending: nat)
    requires RunsCapped(s, c, pending)
    ensures pending + LeadCount(s, c) <= 3 || LeadCount(s, c) == 0
    ensures RunsCapped(s[LeadCount(s, c)..], c, 0)
    decreases |s|
  {
    if s != [] && s[0] == c {
      CappedSkipRun(s[1..], c, pending + 1);
      assert s[LeadCount(s, c)..] == s[1..][LeadCount(s[1..], c)..];
    } else if s != [] {
      assert s[1..] == s[0..][1..];
    }
  }

  /** A string without long runs is left as it is. */
  lemma {:induction false} CollapseFixpoint(s: string, c: char)
    requires NoLongRun(s, c)
    ensures CollapseRuns(s, c) == s
    decreases |s|
  {
    if s != [] {
      if s[0] != c {
        CollapseFixpoint(s[1..], c);
        assert s == [s[0]] + s[1..];
      } else {
        var n := LeadCount(s, c);
        CappedSkipRun(s, c, 0);
        CollapseFixpoint(s[n..], c);
        assert s == s[..n] + s[n..];
      }
    }
  }

  /** Collapsing twice is collapsing once. */
  lemma CollapseIdempotent(s: string, c: char)
    ensures CollapseRuns(CollapseRuns(s, c), c) == CollapseRuns(s, c)
  {
    CollapseFixpoint(CollapseRuns(s, c), c);
  }

  /** A non-empty prefix without `d` resets the count of pending `d`. */
  lemma {:induction false} CappedDropPrefix(u: string, x: string, d: char, pending: nat)
    requires |u| >= 1 && d !in u
    requires RunsCapped(u + x, d, pending)
    ensures RunsCapped(x, d, 0)
    decreases |u|
  {
    assert (u + x)[1..] == u[1..] + x;
    if |u| > 1 {
      CappedDropPrefix(u[1..], x, d, 0);
    }
  }

  /** ... and prepending one keeps the runs capped. */
  lemma {:induction false} CappedAddPrefix(u: string, x: string, d: char, pending: nat)
    requires |u| >= 1 && d !in u
    requires RunsCapped(x, d, 0)
    ensures RunsCapped(u + x, d, pending)
    decreases |u|
  {
    assert (u + x)[1..] == u[1..] + x;
    if |u| > 1 {
      CappedAddPrefix(u[1..], x, d, 0);
    }
  }

  /** Cutting off a suffix keeps the runs capped. */
  lemma {:induction false} CappedPrefix(x: string, y: string, d: char, pending: nat)
    requires RunsCapped(x + y, d, pending)
    ensures RunsCapped(x, d, pending)
    decreases |x|
  {
    if x != [] {
      assert (x + y)[1..] == x[1..] + y;
      CappedPrefix(x[1..], y, d, if x[0] == d then pending + 1 else 0);
    }
  }

  /** Collapsing runs of `c` creates no long run of another character. */
  lemma {:induction false} CollapseKeepsOtherCaps(s: string, c: char, d: char, pending: nat)
    requires c != d
    requires RunsCapped(s, d, pending)
    ensures RunsCapped(CollapseRuns(s, c), d, pending)
    decreases |s|
  {
    if s != [] {
      if s[0] != c {
        var rest := CollapseRuns(s[1..], c);
        CollapseKeepsOtherCaps(s[1..], c, d, if s[0] == d then pending + 1 else 0);
        assert ([s[0]] + rest)[1..] == rest;
      } else {
        var n := LeadCount(s, c);
        var run := if n >= 4 then Repeat(c, 3) else s[..n];
        assert s == s[..n] + s[n..];
        assert d !in s[..n];
        CappedDropPrefix(s[..n], s[n..], d, pending);
        CollapseKeepsOtherCaps(s[n..], c, d, 0);
        assert d !in run;
        CappedAddPrefix(run, CollapseRuns(s[n..], c), d, pending);
      }
    }
  }

  /** Stripping creates no long run. */
  lemma StripKeepsCaps(s: string, d: char)
    requires !IsSpace(d)
    requires NoLongRun(s, d)
    ensures NoLongRun(Strip(s), d)
  {
    var i, j := StripBounds(s);
    if i > 0 {
      PrefixSplit(s, i);
      AllSpaceExcludes(s[..i], d);
      CappedDropPrefix(s[..i], s[i..], d, 0);
    }
    SliceSplit(s, i, j);
    CappedPrefix(s[i..j], s[j..], d, 0);
  }

  // ---------------------------------------------------------------------
  // Newline runs: `\n\s*\n\s*\n+` -> "\n\n" and `\n\s*\n\s*\n\s*\n+` -> "\n\n\n"

  function NewlineCount(s: string): nat
    decreases |s|
  {
    if s == [] then 0 else (if s[0] == '\n' then 1 else 0) + NewlineCount(s[1..])
  }

  /** The index just past the last newline of `s`, or 0 when it has none. */
  function AfterLastNewline(s: string): (n: nat)
    ensures n <= |s|
    ensures n > 0 ==> s[n - 1] == '\n'
    ensures '\n' !in s[n..]
    ensures '\n' in s ==> n > 0
    decreases |s|
  {
    if s == [] then 0
    else if s[|s| - 1] == '\n' then |s|
    else
      var n := AfterLastNewline(s[..|s| - 1]);
      assert s[n..] == s[..|s| - 1][n..] + [s[|s| - 1]];
      n
  }

  /**
   * The scan of a newline pattern that needs `atLeast` newlines in one stretch
   * of whitespace. Only a newline can start a match, and the `\s*` parts
   * cannot leave the whitespace run that newline opens; with enough newlines
   * in that run the greedy match ends at the run's last newline, and the
   * whole span is replaced. Scanning resumes after the span.
   */
  function SqueezeNewlines(s: string, atLeast: nat, replacement: string): (r: string)
    ensures '\n' !in s ==> r == s
    decreases |s|
  {
    if s == [] then []
    else
      var run := s[..LeadSpaceLen(s)];
      if s[0] == '\n' && NewlineCount(run) >= atLeast then
        var e := AfterLastNewline(run);
        assert IsSpace(s[0]);
        assert run[0] == '\n';
        replacement + SqueezeNewlines(s[e..], atLeast, replacement)
      else [s[0]] + SqueezeNewlines(s[1..], atLeast, replacement)
  }

  /** One step of the scan that keeps the first character. */
  lemma SqueezeKeepsFirst(s: string, atLeast: nat, replacement: string)
    requires s != []
    requires s[0] != '\n' || NewlineCount(s[..LeadSpaceLen(s)]) < atLeast
    ensures SqueezeNewlines(s, atLeast, replacement) == [s[0]] + SqueezeNewlines(s[1..], atLeast, replacement)
  {
  }

  /** One step of the scan that replaces a whitespace run from its first to its last newline. */
  lemma SqueezeReplacesRun(s: string, atLeast: nat, replacement: string)
    requires s != [] && s[0] == '\n' && NewlineCount(s[..LeadSpaceLen(s)]) >= atLeast
    ensures SqueezeNewlines(s, atLeast, replacement) ==
              replacement + SqueezeNewlines(s[AfterLastNewline(s[..LeadSpaceLen(s)])..], atLeast, replacement)
  {
  }

  /** Text without a newline passes through the scan unchanged. */
  lemma {:induction false} SqueezeSkipsNoNewline(a: string, b: string, atLeast: nat, replacement: string)
    requires '\n' !in a
    ensures SqueezeNewlines(a + b, atLeast, replacement) == a + SqueezeNewlines(b, atLeast, replacement)
    decreases |a|
  {
    if a == [] {
      assert a + b == b;
    } else {
      ConsAppend(a, b);
      SqueezeKeepsFirst(a + b, atLeast, replacement);
      SqueezeSkipsNoNewline(a[1..], b, atLeast, replacement);
      ConsSplit(a[0], a, SqueezeNewlines(b, atLeast, replacement));
    }
  }

  /** The whitespace run that `w + rest` starts with is `w`. */
  lemma WholeRun(w: string, rest: string)
    requires AllSpace(w)
    requires rest == [] || !IsSpace(rest[0])
    ensures (w + rest)[..LeadSpaceLen(w + rest)] == w
  {
    LeadSpaceOf(w, rest);
    PrefixAppend(w, rest);
  }

  /**
   * A whole whitespace run `w` that opens with a newline and holds at least
   * `atLeast` newlines is replaced, from that newline to its last newline, by
   * `replacement`; the whitespace after the last newline is kept.
   */
  lemma SqueezeLongRun(w: string, rest: string, atLeast: nat, replacement: string)
    requires AllSpace(w) && w != [] && w[0] == '\n' && NewlineCount(w) >= atLeast
    requires rest == [] || !IsSpace(rest[0])
    ensures SqueezeNewlines(w + rest, atLeast, replacement) ==
              replacement + w[AfterLastNewline(w)..] + SqueezeNewlines(rest, atLeast, replacement)
  {
    var e := AfterLastNewline(w);
    var tail := SqueezeNewlines(rest, atLeast, replacement);
    calc {
      SqueezeNewlines(w + rest, atLeast, replacement);
    == { WholeRun(w, rest); ConsAppend(w, rest); SqueezeReplacesRun(w + rest, atLeast, replacement); }
      replacement + SqueezeNewlines((w + rest)[e..], atLeast, replacement);
    == { DropAppend(w, rest, e); }
      replacement + SqueezeNewlines(w[e..] + rest, atLeast, replacement);
    == { SqueezeSkipsNoNewline(w[e..], rest, atLeast, replacement); }
      replacement + (w[e..] + tail);
    == { AppendAssoc(replacement, w[e..], tail); }
      replacement + w[e..] + tail;
    }
  }

  /** A whole whitespace run with fewer than `atLeast` newlines is kept as it is. */
  lemma {:induction false} SqueezeKeepsShortRun(w: string, rest: string, atLeast: nat, replacement: string)
    requires AllSpace(w) && NewlineCount(w) < atLeast
    requires rest == [] || !IsSpace(rest[0])
    ensures SqueezeNewlines(w + rest, atLeast, replacement) == w + SqueezeNewlines(rest, atLeast, replacement)
    decreases |w|
  {
    if w == [] {
      assert w + rest == rest;
    } else {
      WholeRun(w, rest);
      ConsAppend(w, rest);
      SqueezeKeepsFirst(w + rest, atLeast, replacement);
      SqueezeKeepsShortRun(w[1..], rest, atLeast, replacement);
      ConsSplit(w[0], w, SqueezeNewlines(rest, atLeast, replacement));
    }
  }

  /** Squeezing whitespace creates no long run of a non-space character. */
  lemma {:induction false} SqueezeKeepsCaps(s: string, atLeast: nat, replacement: string, d: char, pending: nat)
    requires !IsSpace(d)
    requires |replacement| >= 1 && AllSpace(replacement)
    requires RunsCapped(s, d, pending)
    ensures RunsCapped(SqueezeNewlines(s, atLeast, replacement), d, pending)
    decreases |s|
  {
    if s != [] {
      var run := s[..LeadSpaceLen(s)];
      if s[0] == '\n' && NewlineCount(run) >= atLeast {
        var e := AfterLastNewline(run);
        assert IsSpace(s[0]);
        assert run[0] == '\n';
        assert s == s[..e] + s[e..];
        assert s[..e] == run[..e];
        assert AllSpace(s[..e]);
        assert d !in s[..e];
        CappedDropPrefix(s[..e], s[e..], d, pending);
        SqueezeKeepsCaps(s[e..], atLeast, replacement, d, 0);
        assert d !in replacement;
        CappedAddPrefix(replacement, SqueezeNewlines(s[e..], atLeast, replacement), d, pending);
      } else {
        var rest := SqueezeNewlines(s[1..], atLeast, replacement);
        SqueezeKeepsCaps(s[1..], atLeast, replacement, d, if s[0] == d then pending + 1 else 0);
        assert ([s[0]] + rest)[1..] == rest;
      }
    }
  }

  // ---------------------------------------------------------------------
  // Numbered artifact lines: `re.sub(r'^\s*\d+\.\s*$', '', s, flags=re.MULTILINE)`

  /** The length of the digit run that `s` starts with. */
  function LeadDigitLen(s: string): (n: nat)
    ensures n <= |s|
    ensures forall i :: 0 <= i < n ==> IsDigit(s[i])
    ensures n < |s| ==> !IsDigit(s[n])
    decreases |s|
  {
    if s == [] || !IsDigit(s[0]) then 0 else 1 + LeadDigitLen(s[1..])
  }

  /** The characters a numbered-line match can consume. */
  predicate IsArtifactChar(c: char)
  {
    IsSpace(c) || IsDigit(c) || c == '.'
  }

  /** Every character of `x` is one a numbered-line match can consume. */
  predicate AllArtifact(x: string)
  {
    forall i :: 0 <= i < |x| ==> IsArtifactChar(x[i])
  }

  lemma AllArtifactAppend(x: string, y: string)
    requires AllArtifact(x) && AllArtifact(y)
    ensures AllArtifact(x + y)
  {
    forall i | 0 <= i < |x + y|
      ensures IsArtifactChar((x + y)[i])
    {
      if i >= |x| {
        assert (x + y)[i] == y[i - |x|];
      }
    }
  }

  lemma SpaceIsArtifact(a: string)
    requires AllSpace(a)
    ensures AllArtifact(a)
  {
  }

  /**
   * The tail `\s*$` of the pattern on `v`, the text after the dot: the greedy
   * `\s*` takes the whole whitespace run; `$` holds there at the end of the
   * text, and otherwise the match backs off to just before the run's last
   * newline, or fails if the run has none.
   */
  function SpaceToLineEnd(v: string): (n: Option<nat>)
    ensures n.Some? ==> n.value <= |v|
  {
    var t := LeadSpaceLen(v);
    if t == |v| then Some(t)
    else
      var k := AfterLastNewline(v[..t]);
      if k == 0 then None else Some(k - 1)
  }

  /** What `\s*$` takes is whitespace, and it ends at the end of the text or before a newline. */
  lemma SpaceToLineEndShape(v: string)
    requires SpaceToLineEnd(v).Some?
    ensures AllSpace(v[..SpaceToLineEnd(v).value])
    ensures SpaceToLineEnd(v).value == |v| || v[SpaceToLineEnd(v).value] == '\n'
  {
    var t := LeadSpaceLen(v);
    if t < |v| {
      var k := AfterLastNewline(v[..t]);
      assert v[..k - 1] == v[..t][..k - 1];
    }
  }

  /**
   * The length of the `\s*\d+\.` part of the pattern at the start of `u`.
   * The greedy `\s*` must take the whole whitespace run (a digit has to
   * follow it) and `\d+` the whole digit run (a dot has to follow it).
   */
  function NumberPrefix(u: string): (n: Option<nat>)
    ensures n.Some? ==> 0 < n.value <= |u|
  {
    var q := LeadSpaceLen(u);
    var d := LeadDigitLen(u[q..]);
    if d == 0 || q + d == |u| || u[q + d] != '.' then None
    else Some(q + d + 1)
  }

  /** What `\s*\d+\.` takes is whitespace, digits and a dot. */
  lemma NumberPrefixShape(u: string)
    requires NumberPrefix(u).Some?
    ensures AllArtifact(u[..NumberPrefix(u).value])
  {
    var q := LeadSpaceLen(u);
    var d := LeadDigitLen(u[q..]);
    NumberedLineParts(u, q, d);
  }

  lemma NumberedLineParts(u: string, q: nat, d: nat)
    requires q + d < |u|
    requires AllSpace(u[..q])
    requires forall i :: 0 <= i < d ==> IsDigit(u[q..][i])
    requires u[q + d] == '.'
    ensures AllArtifact(u[..q + d + 1])
  {
    forall i | 0 <= i < q + d + 1
      ensures IsArtifactChar(u[i])
    {
      if i < q {
        assert u[i] == u[..q][i];
      } else if i < q + d {
        assert u[i] == u[q..][i - q];
      }
    }
  }

  /** The length of a match of `^\s*\d+\.\s*$` at the start of `u`, if there is one. */
  function NumberedLineLength(u: string): (n: Option<nat>)
    ensures n.Some? ==> 0 < n.value <= |u|
  {
    match NumberPrefix(u)
    case None => None
    case Some(k) =>
      match SpaceToLineEnd(u[k..])
      case None => None
      case Some(m) => Some(k + m)
  }

  /** A match consumes only whitespace, digits and dots, and ends where `$` holds. */
  lemma NumberedLineShape(u: string)
    requires NumberedLineLength(u).Some?
    ensures AllArtifact(u[..NumberedLineLength(u).value])
    ensures NumberedLineLength(u).value == |u| || u[NumberedLineLength(u).value] == '\n'
  {
    var k := NumberPrefix(u).value;
    var m := SpaceToLineEnd(u[k..]).value;
    NumberPrefixShape(u);
    SpaceToLineEndShape(u[k..]);
    PrefixOfSum(u, k, m);
    SpaceIsArtifact(u[k..][..m]);
    AllArtifactAppend(u[..k], u[k..][..m]);
    if k + m < |u| {
      assert u[k + m] == u[k..][m];
    }
  }

  /** `^` under `re.MULTILINE`: the start of the text or just after a newline. */
  predicate AtLineStart(s: string, i: nat)
    requires i <= |s|
  {
    i == 0 || s[i - 1] == '\n'
  }

  /** Where a match that starts at `s[i]` ends, if one does. */
  function MatchEnd(s: string, i: nat): (e: Option<nat>)
    requires i < |s|
    ensures e.Some? ==> i < e.value <= |s|
  {
    if !AtLineStart(s, i) then None
    else match NumberedLineLength(s[i..])
      case None => None
      case Some(n) => Some(i + n)
  }

  /** A match consumes only whitespace, digits and dots. */
  lemma MatchEndShape(s: string, i: nat)
    requires i < |s| && MatchEnd(s, i).Some?
    ensures AllArtifact(s[i..MatchEnd(s, i).value])
  {
    var n := NumberedLineLength(s[i..]).value;
    NumberedLineShape(s[i..]);
    SliceOfSuffix(s, i, n);
  }

  /** What `\s*\d+\.` takes is a whitespace run, a non-empty digit run and a dot. */
  lemma NumberPrefixParts(u: string) returns (ws: string, ds: string)
    requires NumberPrefix(u).Some?
    ensures AllSpace(ws) && |ds| > 0 && forall j :: 0 <= j < |ds| ==> IsDigit(ds[j])
    ensures u[..NumberPrefix(u).value] == ws + ds + "."
  {
    var q := LeadSpaceLen(u);
    var d := LeadDigitLen(u[q..]);
    ws := u[..q];
    ds := u[q..][..d];
    PrefixOfSum(u, q, d);
    assert u[..q + d + 1] == u[..q + d] + [u[q + d]];
  }

  /** A match at the start of `u` is whitespace, a non-empty digit run, a dot and whitespace. */
  lemma NumberedLineSplit(u: string) returns (ws: string, ds: string, ws2: string)
    requires NumberedLineLength(u).Some?
    ensures AllSpace(ws) && AllSpace(ws2)
    ensures |ds| > 0 && forall j :: 0 <= j < |ds| ==> IsDigit(ds[j])
    ensures u[..NumberedLineLength(u).value] == ws + ds + "." + ws2
  {
    var k := NumberPrefix(u).value;
    var m := SpaceToLineEnd(u[k..]).value;
    ws, ds := NumberPrefixParts(u);
    SpaceToLineEndShape(u[k..]);
    ws2 := u[k..][..m];
    PrefixOfSum(u, k, m);
  }

  /**
   * Every span the substitution deletes has the form of the pattern:
   * whitespace, a non-empty digit run, a dot, whitespace, and reaches the end
   * of its line. So a line such as "1", "..." or "1.2." is never deleted.
   */
  lemma MatchEndParts(s: string, i: nat) returns (ws: string, ds: string, ws2: string)
    requires i < |s| && MatchEnd(s, i).Some?
    ensures AllSpace(ws) && AllSpace(ws2)
    ensures |ds| > 0 && forall j :: 0 <= j < |ds| ==> IsDigit(ds[j])
    ensures s[i..MatchEnd(s, i).value] == ws + ds + "." + ws2
    ensures MatchEnd(s, i).value == |s| || s[MatchEnd(s, i).value] == '\n'
  {
    ws, ds, ws2 := MatchSplit(s, i);
    MatchReachesLineEnd(s, i);
  }

  /** The three parts of a match found at `i`. */
  lemma MatchSplit(s: string, i: nat) returns (ws: string, ds: string, ws2: string)
    requires i < |s| && MatchEnd(s, i).Some?
    ensures AllSpace(ws) && AllSpace(ws2)
    ensures |ds| > 0 && forall j :: 0 <= j < |ds| ==> IsDigit(ds[j])
    ensures s[i..MatchEnd(s, i).value] == ws + ds + "." + ws2
  {
    var n := NumberedLineLength(s[i..]).value;
    ws, ds, ws2 := NumberedLineSplit(s[i..]);
    SliceOfSuffix(s, i, n);
  }

  /** A match ends at the end of the text or right before a newline. */
  lemma MatchReachesLineEnd(s: string, i: nat)
    requires i < |s| && MatchEnd(s, i).Some?
    ensures MatchEnd(s, i).value == |s| || s[MatchEnd(s, i).value] == '\n'
  {
    var n := NumberedLineLength(s[i..]).value;
    NumberedLineShape(s[i..]);
    if i + n < |s| {
      assert s[i..][n] == s[i + n];
    }
  }

  /** A match always holds a dot. */
  lemma MatchHasDot(s: string, i: nat)
    requires i < |s|
    ensures MatchEnd(s, i).Some? ==> '.' in s[i..]
  {
    if MatchEnd(s, i).Some? {
      var k := NumberPrefix(s[i..]).value;
      assert s[i..][k - 1] == '.';
    }
  }

  /** Where no dot follows, the scan keeps every character. */
  lemma {:induction false} BlankFromWithoutDot(s: string, i: nat)
    requires i <= |s| && '.' !in s[i..]
    ensures BlankNumberedFrom(s, i) == s[i..]
    decreases |s| - i
  {
    if i < |s| {
      MatchHasDot(s, i);
      SliceCons(s, i);
      BlankFromWithoutDot(s, i + 1);
    }
  }

  /** A text without a dot is left unchanged by the substitution. */
  lemma BlankKeepsDotlessText(s: string)
    requires '.' !in s
    ensures BlankNumberedLines(s) == s
  {
    assert s[0..] == s;
    BlankFromWithoutDot(s, 0);
  }

  /** The scan of the substitution from index `i` on; a match can start only at a line start. */
  function BlankNumberedFrom(s: string, i: nat): string
    requires i <= |s|
    decreases |s| - i
  {
    if i == |s| then []
    else match MatchEnd(s, i)
      case Some(e) => BlankNumberedFrom(s, e)
      case None => [s[i]] + BlankNumberedFrom(s, i + 1)
  }

  /**
   * `re.sub(r'^\s*\d+\.\s*$', '', s, flags=re.MULTILINE)`: only deletes
   * characters, and only whitespace, digits and dots.
   */
  function BlankNumberedLines(s: string): (r: string)
    ensures IsSubsequence(r, s)
    ensures Significant(r) == Significant(s)
  {
    assert s[0..] == s;
    BlankIsSubsequence(s, 0);
    BlankKeepsSignificant(s, 0);
    BlankNumberedFrom(s, 0)
  }

  /** `s` without the characters a numbered-line match can consume. */
  function Significant(s: string): string
    decreases |s|
  {
    if s == [] then [] else (if IsArtifactChar(s[0]) then [] else [s[0]]) + Significant(s[1..])
  }

  lemma {:induction false} SignificantAppend(a: string, b: string)
    ensures Significant(a + b) == Significant(a) + Significant(b)
    decreases |a|
  {
    if a == [] {
      assert a + b == b;
    } else {
      assert (a + b)[0] == a[0];
      assert (a + b)[1..] == a[1..] + b;
      SignificantAppend(a[1..], b);
    }
  }

  lemma {:induction false} SignificantOfArtifacts(a: string)
    requires AllArtifact(a)
    ensures Significant(a) == []
    decreases |a|
  {
    if a != [] {
      SignificantOfArtifacts(a[1..]);
    }
  }

  /** One step of the scan: at `i` it either keeps `s[i]` or drops a whole match. */
  lemma BlankStep(s: string, i: nat) returns (e: nat, kept: bool)
    requires i < |s|
    ensures i < e <= |s|
    ensures kept ==> e == i + 1 && BlankNumberedFrom(s, i) == [s[i]] + BlankNumberedFrom(s, i + 1)
    ensures !kept ==> BlankNumberedFrom(s, i) == BlankNumberedFrom(s, e) && AllArtifact(s[i..e])
  {
    kept := MatchEnd(s, i).None?;
    e := if kept then i + 1 else MatchEnd(s, i).value;
    if !kept {
      MatchEndShape(s, i);
    }
  }

  /** Blanking deletes characters and nothing else. */
  lemma {:induction false} BlankIsSubsequence(s: string, i: nat)
    requires i <= |s|
    ensures IsSubsequence(BlankNumberedFrom(s, i), s[i..])
    decreases |s| - i
  {
    if i < |s| {
      var e, kept := BlankStep(s, i);
      BlankIsSubsequence(s, e);
      if kept {
        SliceCons(s, i);
      } else {
        SliceSplit(s, i, e);
        SubsequenceOfSuffix(BlankNumberedFrom(s, e), s[i..e], s[e..]);
      }
    }
  }

  /** Every character that blanking deletes is whitespace, a digit or a dot. */
  lemma {:induction false} BlankKeepsSignificant(s: string, i: nat)
    requires i <= |s|
    ensures Significant(BlankNumberedFrom(s, i)) == Significant(s[i..])
    decreases |s| - i
  {
    if i < |s| {
      var e, kept := BlankStep(s, i);
      BlankKeepsSignificant(s, e);
      if kept {
        SliceCons(s, i);
        SignificantAppend([s[i]], s[i + 1..]);
        SignificantAppend([s[i]], BlankNumberedFrom(s, i + 1));
      } else {
        SliceSplit(s, i, e);
        SignificantAppend(s[i..e], s[e..]);
        SignificantOfArtifacts(s[i..e]);
      }
    }
  }

  // ---------------------------------------------------------------------
  // Which lines the substitution finds: a line made of whitespace, digits,
  // a dot and whitespace is matched, and blanking deletes it.

  /** The parts of a numbered artifact line: whitespace `ws`, the digits `ds` and whitespace `ws2`, none holding a newline. */
  predicate LineParts(ws: string, ds: string, ws2: string)
  {
    AllSpace(ws) && '\n' !in ws && AllSpace(ws2) && '\n' !in ws2 &&
    |ds| > 0 && forall i :: 0 <= i < |ds| ==> IsDigit(ds[i])
  }

  /** A numbered artifact line such as "  12. ": whitespace, one or more digits, a dot, whitespace. */
  ghost predicate NumberedLine(line: string)
  {
    exists ws, ds, ws2 :: LineParts(ws, ds, ws2) && line == ws + ds + "." + ws2
  }

  /** The whitespace run that `a + b` starts with is `a` exactly when `b` does not start with whitespace. */
  lemma {:induction false} LeadSpaceOf(a: string, b: string)
    requires AllSpace(a)
    requires b == [] || !IsSpace(b[0])
    ensures LeadSpaceLen(a + b) == |a|
    decreases |a|
  {
    if a == [] {
      assert a + b == b;
    } else {
      assert (a + b)[0] == a[0];
      assert (a + b)[1..] == a[1..] + b;
      LeadSpaceOf(a[1..], b);
    }
  }

  /** The digit run that `a + b` starts with is `a` exactly when `b` does not start with a digit. */
  lemma {:induction false} LeadDigitsOf(a: string, b: string)
    requires forall i :: 0 <= i < |a| ==> IsDigit(a[i])
    requires b == [] || !IsDigit(b[0])
    ensures LeadDigitLen(a + b) == |a|
    decreases |a|
  {
    if a == [] {
      assert a + b == b;
    } else {
      assert (a + b)[0] == a[0];
      assert (a + b)[1..] == a[1..] + b;
      LeadDigitsOf(a[1..], b);
    }
  }

  /**
   * The tail `\s*$` after the dot matches whitespace without a newline that
   * is followed by the end of the text or by a newline. When the text ends
   * there, or a newline and then a non-space character follow, the match
   * ends right before that newline.
   */
  lemma SpaceToLineEndFound(ws2: string, rest: string)
    requires AllSpace(ws2) && '\n' !in ws2
    requires rest == [] || rest[0] == '\n'
    ensures SpaceToLineEnd(ws2 + rest).Some?
    ensures |ws2| <= SpaceToLineEnd(ws2 + rest).value
    ensures rest == [] || (|rest| >= 2 && !IsSpace(rest[1])) ==> SpaceToLineEnd(ws2 + rest).value == |ws2|
  {
    var v := ws2 + rest;
    if rest == [] {
      assert v == ws2 + [];
      LeadSpaceOf(ws2, []);
    } else {
      var a := ws2 + ['\n'];
      assert v == a + rest[1..];
      LeadSpaceCovers(a, rest[1..]);
      var t := LeadSpaceLen(v);
      if |rest| >= 2 && !IsSpace(rest[1]) {
        LeadSpaceOf(a, rest[1..]);
      }
      if t < |v| {
        assert v[..t][|ws2|] == '\n';
        AfterLastNewlinePast(v[..t], |ws2|);
        if |rest| >= 2 && !IsSpace(rest[1]) {
          assert v[..t][t - 1] == '\n';
        }
      }
    }
  }

  /** The whitespace run that `a + b` starts with covers `a` when `a` is whitespace. */
  lemma {:induction false} LeadSpaceCovers(a: string, b: string)
    requires AllSpace(a)
    ensures |a| <= LeadSpaceLen(a + b)
    decreases |a|
  {
    if a != [] {
      assert (a + b)[0] == a[0];
      assert (a + b)[1..] == a[1..] + b;
      LeadSpaceCovers(a[1..], b);
    }
  }

  /** A newline at `j` lies before the point just past the last newline. */
  lemma {:induction false} AfterLastNewlinePast(s: string, j: nat)
    requires j < |s| && s[j] == '\n'
    ensures j < AfterLastNewline(s)
    decreases |s|
  {
    if s[|s| - 1] != '\n' {
      assert s[..|s| - 1][j] == '\n';
      AfterLastNewlinePast(s[..|s| - 1], j);
    }
  }

  /** `\s*\d+\.` takes the leading whitespace, all the digits and the dot. */
  lemma NumberPrefixOf(ws: string, ds: string, t: string)
    requires AllSpace(ws)
    requires |ds| > 0 && forall i :: 0 <= i < |ds| ==> IsDigit(ds[i])
    requires t != [] && t[0] == '.'
    ensures NumberPrefix(ws + ds + t) == Some(|ws| + |ds| + 1)
  {
    var u := ws + ds + t;
    assert u == ws + (ds + t);
    LeadSpaceOf(ws, ds + t);
    assert u[|ws|..] == ds + t;
    LeadDigitsOf(ds, t);
    assert u[|ws| + |ds|] == '.';
  }

  /** The whole pattern matches when its two parts do, one after the other. */
  lemma NumberedLineLengthOf(u: string, k: nat, m: nat)
    requires NumberPrefix(u) == Some(k)
    requires SpaceToLineEnd(u[k..]) == Some(m)
    ensures NumberedLineLength(u) == Some(k + m)
  {
  }

  /** `^\s*\d+\.\s*$` matches a numbered line followed by the end of the text or a newline. */
  lemma NumberedLineMatched(ws: string, ds: string, ws2: string, rest: string)
    requires LineParts(ws, ds, ws2)
    requires rest == [] || rest[0] == '\n'
    ensures NumberedLineLength(ws + ds + "." + ws2 + rest).Some?
    ensures |ws + ds + "." + ws2| <= NumberedLineLength(ws + ds + "." + ws2 + rest).value
    ensures rest == [] || (|rest| >= 2 && !IsSpace(rest[1])) ==>
              NumberedLineLength(ws + ds + "." + ws2 + rest).value == |ws + ds + "." + ws2|
  {
    NumberedLineMatchedIn(ws + ds + "." + ws2 + rest, ws, ds, ws2, rest);
  }

  /** `NumberedLineMatched` for a text `u` already split into its parts. */
  lemma NumberedLineMatchedIn(u: string, ws: string, ds: string, ws2: string, rest: string)
    requires LineParts(ws, ds, ws2)
    requires rest == [] || rest[0] == '\n'
    requires u == ws + ds + "." + ws2 + rest
    ensures NumberedLineLength(u).Some?
    ensures |ws| + |ds| + 1 + |ws2| <= NumberedLineLength(u).value
    ensures rest == [] || (|rest| >= 2 && !IsSpace(rest[1])) ==>
              NumberedLineLength(u).value == |ws| + |ds| + 1 + |ws2|
  {
    var k := |ws| + |ds| + 1;
    assert u == ws + ds + ("." + ws2 + rest);
    NumberPrefixOf(ws, ds, "." + ws2 + rest);
    assert u[k..] == ws2 + rest;
    SpaceToLineEndFound(ws2, rest);
    NumberedLineLengthOf(u, k, SpaceToLineEnd(ws2 + rest).value);
  }

  /** At a line start, a numbered line is found, and the match covers at least the whole line. */
  lemma MatchAtNumberedLine(s: string, i: nat, ws: string, ds: string, ws2: string, rest: string)
    requires i < |s| && AtLineStart(s, i)
    requires LineParts(ws, ds, ws2)
    requires rest == [] || rest[0] == '\n'
    requires s[i..] == ws + ds + "." + ws2 + rest
    ensures MatchEnd(s, i).Some?
    ensures i + |ws + ds + "." + ws2| <= MatchEnd(s, i).value
    ensures rest == [] || (|rest| >= 2 && !IsSpace(rest[1])) ==>
              MatchEnd(s, i).value == i + |ws + ds + "." + ws2|
  {
    NumberedLineMatched(ws, ds, ws2, rest);
  }

  /** Where no match starts, the scan keeps the character. */
  lemma BlankKeep(s: string, i: nat)
    requires i < |s| && MatchEnd(s, i).None?
    ensures BlankNumberedFrom(s, i) == [s[i]] + BlankNumberedFrom(s, i + 1)
  {
  }

  /** Where a match starts, the scan drops it and goes on after it. */
  lemma BlankSkip(s: string, i: nat)
    requires i < |s| && MatchEnd(s, i).Some?
    ensures BlankNumberedFrom(s, i) == BlankNumberedFrom(s, MatchEnd(s, i).value)
  {
  }

  /**
   * A numbered line `s[i..e]` at a line start, followed by a newline and a
   * non-space character, is matched exactly: the match ends before the newline.
   */
  lemma MatchBeforeNextLine(s: string, i: nat, e: nat)
    requires i < e && e + 1 < |s| && AtLineStart(s, i)
    requires NumberedLine(s[i..e]) && s[e] == '\n' && !IsSpace(s[e + 1])
    ensures MatchEnd(s, i) == Some(e)
  {
    NumberedLineSame(s[i..e], s[i..][..e - i]);
    LineBeforeNextLine(s[i..], e - i);
    assert MatchEnd(s, i) == Some(i + (e - i));
  }

  /** Being a numbered line depends on the characters only. */
  lemma NumberedLineSame(a: string, b: string)
    requires NumberedLine(a) && a == b
    ensures NumberedLine(b)
  {
  }

  /** The same at the start of a text: the match ends right before the newline. */
  lemma LineBeforeNextLine(u: string, n: nat)
    requires n + 1 < |u|
    requires NumberedLine(u[..n]) && u[n] == '\n' && !IsSpace(u[n + 1])
    ensures NumberedLineLength(u) == Some(n)
  {
    var ws, ds, ws2 :| LineParts(ws, ds, ws2) && u[..n] == ws + ds + "." + ws2;
    assert u == u[..n] + u[n..];
    NumberedLineMatched(ws, ds, ws2, u[n..]);
  }

  /** A numbered line is not empty and does not end in a newline. */
  lemma NumberedLineEnd(line: string)
    requires NumberedLine(line)
    ensures line != [] && line[|line| - 1] != '\n'
  {
    var ws, ds, ws2 :| LineParts(ws, ds, ws2) && line == ws + ds + "." + ws2;
    if ws2 == [] {
      assert line[|line| - 1] == '.';
    } else {
      assert line[|line| - 1] == ws2[|ws2| - 1];
    }
  }

  /**
   * When the scan reaches a numbered line `s[i..e]` at a line start, followed
   * by a newline and a non-space character, it deletes the whole line, keeps
   * the newline, and goes on at the start of the next line.
   */
  lemma BlankDeletesNumberedLine(s: string, i: nat, e: nat)
    requires i < e && e + 1 < |s| && AtLineStart(s, i)
    requires NumberedLine(s[i..e]) && s[e] == '\n' && !IsSpace(s[e + 1])
    ensures AtLineStart(s, e + 1)
    ensures BlankNumberedFrom(s, i) == "\n" + BlankNumberedFrom(s, e + 1)
  {
    MatchBeforeNextLine(s, i, e);
    NumberedLineEnd(s[i..e]);
    assert s[e - 1] == s[i..e][e - i - 1];
    BlankMatchThenNewline(s, i, e);
  }

  /** A match followed by a newline that starts no match: the match is dropped and the newline kept. */
  lemma BlankMatchThenNewline(s: string, i: nat, e: nat)
    requires i < e < |s|
    requires MatchEnd(s, i) == Some(e)
    requires !AtLineStart(s, e) && s[e] == '\n'
    ensures BlankNumberedFrom(s, i) == "\n" + BlankNumberedFrom(s, e + 1)
  {
    BlankSkip(s, i);
    BlankKeep(s, e);
  }

  /** A text that is one numbered line is blanked to the empty text. */
  lemma BlankWholeNumberedLine(s: string)
    requires NumberedLine(s)
    ensures BlankNumberedLines(s) == []
  {
    var ws, ds, ws2 :| LineParts(ws, ds, ws2) && s == ws + ds + "." + ws2;
    assert s == s + [];
    assert s[0..] == s;
    MatchAtNumberedLine(s, 0, ws, ds, ws2, []);
    assert MatchEnd(s, 0) == Some(|s|);
    BlankSkip(s, 0);
  }

  lemma {:induction false} SubsequenceOfSuffix(x: string, a: string, b: string)
    requires IsSubsequence(x, b)
    ensures IsSubsequence(x, a + b)
    decreases |a|
  {
    if a != [] {
      assert (a + b)[1..] == a[1..] + b;
      SubsequenceOfSuffix(x, a[1..], b);
    } else {
      assert a + b == b;
    }
  }

  /** Replacing a whitespace prefix by whitespace keeps the significant characters. */
  lemma SignificantReplaceSpace(a: string, b: string, x: string, y: string)
    requires AllSpace(a) && AllSpace(b)
    requires Significant(x) == Significant(y)
    ensures Significant(a + x) == Significant(b + y)
  {
    SignificantAppend(a, x);
    SignificantAppend(b, y);
    SpaceIsArtifact(a);
    SpaceIsArtifact(b);
    SignificantOfArtifacts(a);
    SignificantOfArtifacts(b);
  }

  /** One step of the squeeze scan: it either keeps `s[0]` or replaces a whitespace prefix. */
  lemma SqueezeStep(s: string, atLeast: nat, replacement: string) returns (e: nat, kept: bool)
    requires s != []
    ensures 0 < e <= |s|
    ensures kept ==> e == 1 && SqueezeNewlines(s, atLeast, replacement) == [s[0]] + SqueezeNewlines(s[1..], atLeast, replacement)
    ensures !kept ==> AllSpace(s[..e])
    ensures !kept ==> SqueezeNewlines(s, atLeast, replacement) == replacement + SqueezeNewlines(s[e..], atLeast, replacement)
  {
    var run := s[..LeadSpaceLen(s)];
    kept := !(s[0] == '\n' && NewlineCount(run) >= atLeast);
    if kept {
      e := 1;
    } else {
      e := AfterLastNewline(run);
      assert IsSpace(s[0]);
      assert run[0] == '\n';
      assert s[..e] == run[..e];
    }
  }

  /** Squeezing whitespace keeps every non-whitespace character, in order. */
  lemma {:induction false} SqueezeKeepsSignificant(s: string, atLeast: nat, replacement: string)
    requires AllSpace(replacement)
    ensures Significant(SqueezeNewlines(s, atLeast, replacement)) == Significant(s)
    decreases |s|
  {
    if s != [] {
      var e, kept := SqueezeStep(s, atLeast, replacement);
      SqueezeKeepsSignificant(s[e..], atLeast, replacement);
      SliceSplit(s, 0, e);
      if kept {
        SignificantAppend([s[0]], SqueezeNewlines(s[1..], atLeast, replacement));
        SignificantAppend(s[..1], s[1..]);
      } else {
        SignificantReplaceSpace(replacement, s[..e], SqueezeNewlines(s[e..], atLeast, replacement), s[e..]);
      }
    }
  }

  /** Stripping keeps every non-whitespace character, in order. */
  lemma StripKeepsSignificant(s: string)
    ensures Significant(Strip(s)) == Significant(s)
  {
    var i, j := StripBounds(s);
    PrefixSplit(s, i);
    SliceSplit(s, i, j);
    SignificantAppend(s[..i], s[i..]);
    SignificantAppend(s[i..j], s[j..]);
    SpaceIsArtifact(s[..i]);
    SpaceIsArtifact(s[j..]);
    SignificantOfArtifacts(s[..i]);
    SignificantOfArtifacts(s[j..]);
  }

  // ---------------------------------------------------------------------
  // The two cleaning steps

  /** `clean_code_artifacts` */
  function CleanCodeArtifacts(text: string): (r: string)
    ensures IsStripped(r)
  {
    Strip(BlankNumberedLines(SqueezeNewlines(text, 3, "\n\n")))
  }

  /** `remove_noise_patterns` */
  function RemoveNoisePatterns(text: string): (r: string)
    ensures IsStripped(r)
  {
    Strip(SqueezeNewlines(CollapseRuns(CollapseRuns(text, '!'), '?'), 4, "\n\n\n"))
  }

  /**
   * The code-artifact step is stripped and loses no character other than
   * whitespace, digits and dots.
   */
  lemma CleanCodeArtifactsKeepsText(text: string)
    ensures IsStripped(CleanCodeArtifacts(text))
    ensures Significant(CleanCodeArtifacts(text)) == Significant(text)
  {
    var squeezed := SqueezeNewlines(text, 3, "\n\n");
    SqueezeKeepsSignificant(text, 3, "\n\n");
    StripKeepsSignificant(BlankNumberedLines(squeezed));
  }

  /**
   * After the noise-pattern step no run of four `!` or four `?` is left, and
   * the text has no whitespace at either end.
   */
  lemma NoisePatternsRemoved(text: string)
    ensures IsStripped(RemoveNoisePatterns(text))
    ensures NoLongRun(RemoveNoisePatterns(text), '!')
    ensures NoLongRun(RemoveNoisePatterns(text), '?')
  {
    var a := CollapseRuns(text, '!');
    var b := CollapseRuns(a, '?');
    CollapseKeepsOtherCaps(a, '?', '!', 0);
    var c := SqueezeNewlines(b, 4, "\n\n\n");
    SqueezeKeepsCaps(b, 4, "\n\n\n", '!', 0);
    SqueezeKeepsCaps(b, 4, "\n\n\n", '?', 0);
    StripKeepsCaps(c, '!');
    StripKeepsCaps(c, '?');
  }
}
