/** Text hygiene shared by the renderers and parsers (`backend/src/text.rs`). */
module Text {
  import opened Wrappers

  function UpperChar(c: char): char {
    if 'a' <= c <= 'z' then (c as int - 32) as char else c
  }

  /** ASCII upper-casing; every other character is left alone. */
  function Upper(s: string): (u: string)
    ensures |u| == |s|
    ensures forall i :: 0 <= i < |s| ==> u[i] == UpperChar(s[i])
  {
    if s == "" then "" else [UpperChar(s[0])] + Upper(s[1..])
  }

  function LowerChar(c: char): char {
    if 'A' <= c <= 'Z' then (c as int + 32) as char else c
  }

  /** ASCII lower-casing. */
  function Lower(s: string): (l: string)
    ensures |l| == |s|
    ensures forall i :: 0 <= i < |s| ==> l[i] == LowerChar(s[i])
  {
    seq(|s|, i requires 0 <= i < |s| => LowerChar(s[i]))
  }

  /** Each letter has one capital and one small form, and nothing else changes. */
  lemma CasesAgree(c: char)
    ensures UpperChar(LowerChar(c)) == UpperChar(c) && LowerChar(UpperChar(c)) == LowerChar(c)
    ensures !('a' <= UpperChar(c) <= 'z') && !('A' <= LowerChar(c) <= 'Z')
    ensures (UpperChar(c) == c <==> !('a' <= c <= 'z')) && (LowerChar(c) == c <==> !('A' <= c <= 'Z'))
  {
  }

  lemma UpperIdempotent(s: string)
    ensures Upper(Upper(s)) == Upper(s)
  {
  }

  /** Unicode White_Space, as Rust's `char::is_whitespace`. */
  predicate IsSpace(c: char) {
    || '\U{9}' <= c <= '\U{d}' || c == ' ' || c == '\U{85}' || c == '\U{a0}' || c == '\U{1680}'
    || '\U{2000}' <= c <= '\U{200a}' || c == '\U{2028}' || c == '\U{2029}' || c == '\U{202f}' || c == '\U{205f}'
    || c == '\U{3000}'
  }

  /** The 25 code points of the property. */
  lemma SpacesAre(c: char)
    ensures IsSpace(c) <==> c as int in {
      0x9, 0xA, 0xB, 0xC, 0xD, 0x20, 0x85, 0xA0, 0x1680, 0x2000, 0x2001, 0x2002, 0x2003, 0x2004, 0x2005, 0x2006, 0x2007,
      0x2008, 0x2009, 0x200A, 0x2028, 0x2029, 0x202F, 0x205F, 0x3000}
  {
  }

  function TrimStart(s: string): string {
    if s != "" && IsSpace(s[0]) then TrimStart(s[1..]) else s
  }

  function TrimEnd(s: string): string {
    if s != "" && IsSpace(s[|s| - 1]) then TrimEnd(s[..|s| - 1]) else s
  }

  function Trim(s: string): string {
    TrimEnd(TrimStart(s))
  }

  predicate AllSpaces(s: string) {
    forall i :: 0 <= i < |s| ==> IsSpace(s[i])
  }

  predicate IsTrimmed(s: string) {
    s == "" || (!IsSpace(s[0]) && !IsSpace(s[|s| - 1]))
  }

  lemma {:induction false} TrimStartOf(a: string, w: string)
    requires AllSpaces(a) && (w == "" || !IsSpace(w[0]))
    ensures TrimStart(a + w) == w
  {
    if a == "" {
      assert a + w == w;
    } else {
      TrimStartOf(a[1..], w);
      assert (a + w)[1..] == a[1..] + w;
    }
  }

  lemma {:induction false} TrimEndOf(w: string, b: string)
    requires AllSpaces(b) && (w == "" || !IsSpace(w[|w| - 1]))
    ensures TrimEnd(w + b) == w
  {
    if b == "" {
      assert w + b == w;
    } else {
      TrimEndOf(w, b[..|b| - 1]);
      assert (w + b)[..|w + b| - 1] == w + b[..|b| - 1];
    }
  }

  /** Trimming takes off the whitespace at both ends, and nothing else. */
  lemma TrimOf(a: string, w: string, b: string)
    requires AllSpaces(a) && AllSpaces(b) && IsTrimmed(w)
    ensures Trim(a + w + b) == w
  {
    if w == "" {
      TrimStartOf(a + b, "");
      assert a + w + b == a + b + "";
    } else {
      TrimStartOf(a, w + b);
      TrimEndOf(w, b);
      assert a + w + b == a + (w + b);
    }
  }

  // ---- Dictionary order ------------------------------------------------------------------------

  /** `a` comes strictly before `b`, character by character. */
  predicate Before(a: string, b: string) {
    b != "" && (a == "" || a[0] < b[0] || (a[0] == b[0] && Before(a[1..], b[1..])))
  }

  lemma {:induction false} BeforeIsTotal(a: string, b: string)
    ensures a == b || Before(a, b) || Before(b, a)
    ensures !(Before(a, b) && Before(b, a))
    ensures !Before(a, a)
  {
    if a != "" && b != "" && a[0] == b[0] {
      BeforeIsTotal(a[1..], b[1..]);
      assert a == [a[0]] + a[1..] && b == [b[0]] + b[1..];
    }
    if a != "" {
      BeforeIsTotal(a[1..], a[1..]);
    }
  }

  lemma {:induction false} BeforeIsTransitive(a: string, b: string, c: string)
    requires Before(a, b) && Before(b, c)
    ensures Before(a, c)
  {
    if a != "" && a[0] == b[0] == c[0] {
      BeforeIsTransitive(a[1..], b[1..], c[1..]);
    }
  }

  predicate Ascending(s: seq<string>) {
    forall i, j :: 0 <= i < j < |s| ==> Before(s[i], s[j])
  }

  function Place(s: seq<string>, x: string): (r: seq<string>)
    requires Ascending(s)
    ensures Ascending(r)
    ensures forall y :: y in r <==> y == x || y in s
  {
    if s == [] then [x]
    else
      var last := |s| - 1;
      assert s == s[..last] + [s[last]];
      BeforeIsTotal(s[last], x);
      if Before(s[last], x) then
        assert forall i :: 0 <= i < last ==> Before(s[i], x) by {
          forall i | 0 <= i < last ensures Before(s[i], x) { BeforeIsTransitive(s[i], s[last], x); }
        }
        s + [x]
      else if s[last] == x then s
      else
        var r := Place(s[..last], x);
        assert forall i :: 0 <= i < |r| ==> Before(r[i], s[last]) by {
          forall i | 0 <= i < |r| ensures Before(r[i], s[last]) {
            assert r[i] == x || r[i] in s[..last];
          }
        }
        r + [s[last]]
  }

  /** The names of `s`, each once, in dictionary order. */
  function SortedNames(s: seq<string>): (r: seq<string>)
    ensures Ascending(r)
    ensures forall y :: y in r <==> y in s
  {
    if s == [] then []
    else
      assert s == s[..|s| - 1] + [s[|s| - 1]];
      Place(SortedNames(s[..|s| - 1]), s[|s| - 1])
  }

  /** There is one ascending list of given names. */
  lemma {:induction false} AscendingUnique(r: seq<string>, t: seq<string>)
    requires Ascending(r) && Ascending(t) && forall y :: y in r <==> y in t
    ensures r == t
  {
    assert t != [] ==> t[0] in t;
    if r != [] {
      assert r[0] in t;
      var (a, b) := (r[|r| - 1], t[|t| - 1]);
      assert a in t && b in r;
      BeforeIsTotal(a, b);
      BeforeIsTotal(b, a);
      assert a == b;
      var (r', t') := (r[..|r| - 1], t[..|t| - 1]);
      assert r == r' + [a] && t == t' + [a];
      forall y ensures y in r' <==> y in t' {
        BeforeIsTotal(a, a);
        assert y in r' ==> y in t;
        assert y in t' ==> y in r;
      }
      AscendingUnique(r', t');
    }
  }

  // ---- Collapsing whitespace -------------------------------------------------------------------

  predicate NoSpaces(s: string) {
    forall i :: 0 <= i < |s| ==> !IsSpace(s[i])
  }

  predicate IsWord(w: string) {
    w != "" && NoSpaces(w)
  }

  predicate AllWords(ws: seq<string>) {
    forall i :: 0 <= i < |ws| ==> IsWord(ws[i])
  }

  function WordLength(s: string): (n: nat)
    ensures n <= |s| && NoSpaces(s[..n])
    ensures n < |s| ==> IsSpace(s[n])
  {
    if s == "" || IsSpace(s[0]) then 0
    else
      var n := 1 + WordLength(s[1..]);
      assert s[..n] == [s[0]] + s[1..][..n - 1];
      n
  }

  /** The maximal runs of characters that are not whitespace. */
  function Words(s: string): (ws: seq<string>)
    ensures AllWords(ws)
    decreases |s|
  {
    if s == "" then []
    else if IsSpace(s[0]) then Words(s[1..])
    else [s[..WordLength(s)]] + Words(s[WordLength(s)..])
  }

  /** Word `k` of `ws` stands at `at[k]`, with whitespace between it and the next. */
  ghost predicate Stand(s: string, ws: seq<string>, at: seq<nat>) {
    && |at| == |ws|
    && (forall k :: 0 <= k < |ws| ==> at[k] + |ws[k]| <= |s| && s[at[k]..at[k] + |ws[k]|] == ws[k])
    && forall j, k :: 0 <= j < k < |ws| ==> at[j] + |ws[j]| < at[k]
  }

  /** Position `i` belongs to one of the words. */
  ghost predicate Within(ws: seq<string>, at: seq<nat>, i: nat)
    requires |at| == |ws|
  {
    exists k :: 0 <= k < |ws| && at[k] <= i < at[k] + |ws[k]|
  }

  /** Every character from `n` on that is outside the words is whitespace. */
  ghost predicate SpacesBetween(s: string, ws: seq<string>, at: seq<nat>, n: nat)
    requires |at| == |ws|
  {
    forall i :: n <= i < |s| && !IsSpace(s[i]) ==> Within(ws, at, i)
  }

  /** The words of a text stand in it in order, apart, and leave out nothing but whitespace. */
  lemma {:induction false} WordsStand(s: string) returns (at: seq<nat>)
    ensures Stand(s, Words(s), at) && SpacesBetween(s, Words(s), at, 0)
    decreases |s|
  {
    if s == "" {
      at := [];
    } else if IsSpace(s[0]) {
      var rest := WordsStand(s[1..]);
      at := Shifted(rest, 1);
      ShiftedStand(s, 1, Words(s[1..]), rest);
      ShiftedSpaces(s, 1, Words(s[1..]), rest);
    } else {
      var n := WordLength(s);
      var rest := WordsStand(s[n..]);
      at := [0] + Shifted(rest, n);
      ShiftedStand(s, n, Words(s[n..]), rest);
      ShiftedSpaces(s, n, Words(s[n..]), rest);
      StandApart(s[n..], Words(s[n..]), rest);
      FirstStands(s, n, Words(s[n..]), Shifted(rest, n));
      FirstSpaces(s, n, Words(s[n..]), Shifted(rest, n));
    }
  }

  function Shifted(at: seq<nat>, n: nat): (r: seq<nat>)
    ensures |r| == |at| && forall k :: 0 <= k < |r| ==> r[k] == at[k] + n
  {
    seq(|at|, k requires 0 <= k < |at| => at[k] + n)
  }

  lemma ShiftedStand(s: string, n: nat, ws: seq<string>, at: seq<nat>)
    requires n <= |s| && Stand(s[n..], ws, at)
    ensures Stand(s, ws, Shifted(at, n))
  {
    var there := Shifted(at, n);
    forall k | 0 <= k < |ws| ensures s[there[k]..there[k] + |ws[k]|] == ws[k] {
      assert s[n..][at[k]..at[k] + |ws[k]|] == s[there[k]..there[k] + |ws[k]|];
    }
  }

  lemma ShiftedSpaces(s: string, n: nat, ws: seq<string>, at: seq<nat>)
    requires n <= |s| && |at| == |ws| && SpacesBetween(s[n..], ws, at, 0)
    ensures SpacesBetween(s, ws, Shifted(at, n), n)
  {
    hide IsSpace;
    forall i | n <= i < |s| && !IsSpace(s[i]) ensures Within(ws, Shifted(at, n), i) {
      assert s[n..][i - n] == s[i];
      assert Within(ws, at, i - n);
      var k :| 0 <= k < |ws| && at[k] <= i - n < at[k] + |ws[k]|;
      assert Shifted(at, n)[k] <= i < Shifted(at, n)[k] + |ws[k]|;
    }
  }

  /** After whitespace no word stands at once. */
  lemma StandApart(s: string, ws: seq<string>, at: seq<nat>)
    requires Stand(s, ws, at) && AllWords(ws) && (s != "" ==> IsSpace(s[0]))
    ensures forall k :: 0 <= k < |ws| ==> at[k] > 0
  {
    hide IsSpace;
    forall k | 0 <= k < |ws| ensures at[k] > 0 {
      assert IsWord(ws[k]);
      assert s[at[k]..at[k] + |ws[k]|][0] == s[at[k]];
    }
  }

  lemma FirstStands(s: string, n: nat, ws: seq<string>, at: seq<nat>)
    requires n <= |s| && Stand(s, ws, at) && forall k :: 0 <= k < |ws| ==> at[k] > n
    ensures Stand(s, [s[..n]] + ws, [0] + at)
  {
  }

  lemma FirstSpaces(s: string, n: nat, ws: seq<string>, at: seq<nat>)
    requires n <= |s| && |at| == |ws| && SpacesBetween(s, ws, at, n)
    ensures SpacesBetween(s, [s[..n]] + ws, [0] + at, 0)
  {
    hide IsSpace;
    var all, there := [s[..n]] + ws, [0] + at;
    forall i | 0 <= i < |s| && !IsSpace(s[i]) ensures Within(all, there, i) {
      if i < n {
        assert there[0] <= i < there[0] + |all[0]|;
      } else {
        assert Within(ws, at, i);
        var k :| 0 <= k < |ws| && at[k] <= i < at[k] + |ws[k]|;
        assert there[k + 1] <= i < there[k + 1] + |all[k + 1]|;
      }
    }
  }

  function Join(parts: seq<string>, separator: string): string {
    if parts == [] then ""
    else if |parts| == 1 then parts[0]
    else parts[0] + separator + Join(parts[1..], separator)
  }

  /** Every run of whitespace becomes one space, and none is left at the ends. */
  function Collapse(s: string): string {
    Join(Words(s), " ")
  }

  lemma FirstWord(w: string, rest: string)
    requires IsWord(w) && (rest == "" || IsSpace(rest[0]))
    ensures Words(w + rest) == [w] + Words(rest)
  {
    WordThen(w, rest);
    assert (w + rest)[0] == w[0];
    assert (w + rest)[..|w|] == w && (w + rest)[|w|..] == rest;
  }

  lemma {:induction false} WordThen(w: string, rest: string)
    requires NoSpaces(w) && (rest == "" || IsSpace(rest[0]))
    ensures WordLength(w + rest) == |w|
  {
    if w == "" {
      assert w + rest == rest;
    } else {
      WordThen(w[1..], rest);
      assert (w + rest)[1..] == w[1..] + rest;
    }
  }

  /** Splitting a line into words undoes joining them with spaces. */
  lemma {:induction false} WordsOfJoin(ws: seq<string>)
    requires AllWords(ws)
    ensures Words(Join(ws, " ")) == ws
  {
    if |ws| == 1 {
      FirstWord(ws[0], "");
      assert ws[0] + "" == ws[0] && ws == [ws[0]];
    } else if |ws| > 1 {
      var rest := " " + Join(ws[1..], " ");
      WordsOfJoin(ws[1..]);
      assert ws[0] + " " + Join(ws[1..], " ") == ws[0] + rest;
      FirstWord(ws[0], rest);
      assert rest[1..] == Join(ws[1..], " ") && rest[0] == ' ';
    }
  }

  /** Words on either side of a space are told apart by it. */
  lemma {:induction false} WordsAcrossSpace(a: string, b: string)
    ensures Words(a + " " + b) == Words(a) + Words(b)
    decreases |a|
  {
    hide Words;
    if a == "" {
      SkipSpace(" " + b);
      assert (" " + b)[1..] == b && a + " " + b == " " + b;
      NoWords();
    } else if IsSpace(a[0]) {
      SkipSpace(a);
      SkipSpace(a + " " + b);
      WordsAcrossSpace(a[1..], b);
      assert (a + " " + b)[1..] == a[1..] + " " + b;
    } else {
      var n := WordLength(a);
      var w, rest := a[..n], a[n..] + " " + b;
      WordsAcrossSpace(a[n..], b);
      assert a + " " + b == w + rest && a == w + a[n..];
      FirstWord(w, rest);
      FirstWord(w, a[n..]);
    }
  }

  lemma SkipSpace(s: string)
    requires s != "" && IsSpace(s[0])
    ensures Words(s) == Words(s[1..])
  {
  }

  lemma NoWords()
    ensures Words("") == []
  {
  }

  lemma WordIsItself(w: string)
    requires IsWord(w)
    ensures Words(w) == [w] && Collapse(w) == w
  {
    FirstWord(w, "");
    assert w + "" == w && Words("") == [];
  }

  lemma CollapseIdempotent(s: string)
    ensures Collapse(Collapse(s)) == Collapse(s)
  {
    WordsOfJoin(Words(s));
  }

  predicate OneLine(s: string) {
    forall i :: 0 <= i < |s| ==> s[i] != '\n'
  }

  lemma ConcatIsOneLine(a: string, b: string)
    requires OneLine(a) && OneLine(b)
    ensures OneLine(a + b)
  {
  }

  lemma {:induction false} JoinedWordsAreOneLine(ws: seq<string>)
    requires AllWords(ws)
    ensures OneLine(Join(ws, " "))
  {
    if |ws| > 1 {
      JoinedWordsAreOneLine(ws[1..]);
    }
    if ws != [] {
      assert NoSpaces(ws[0]) && IsSpace('\n');
    }
  }

  /** Whatever an author typed, a collapsed value is one line, with no whitespace but single spaces. */
  lemma CollapsedIsOneLine(s: string)
    ensures OneLine(Collapse(s))
  {
    JoinedWordsAreOneLine(Words(s));
  }

  // ---- Upper-casing and collapsing -------------------------------------------------------------

  function Clean(s: string): string {
    Upper(Collapse(s))
  }

  /** A present value that is not blank, collapsed. */
  function Opt(s: Option<string>): Option<string> {
    if s.Some? && Collapse(s.value) != "" then Some(Collapse(s.value)) else None
  }

  lemma UpperKeepsSpaces(c: char)
    ensures IsSpace(UpperChar(c)) <==> IsSpace(c)
    ensures UpperChar(c) == ' ' <==> c == ' '
    ensures UpperChar(c) == '\n' <==> c == '\n'
  {
  }

  lemma UpperConcat(a: string, b: string)
    ensures Upper(a + b) == Upper(a) + Upper(b)
  {
  }

  function UpperAll(ws: seq<string>): (r: seq<string>)
    ensures |r| == |ws| && forall i :: 0 <= i < |ws| ==> r[i] == Upper(ws[i])
  {
    if ws == [] then [] else [Upper(ws[0])] + UpperAll(ws[1..])
  }

  lemma UpperIsWord(w: string)
    requires IsWord(w)
    ensures IsWord(Upper(w))
  {
    forall i | 0 <= i < |w| ensures !IsSpace(Upper(w)[i]) {
      UpperKeepsSpaces(w[i]);
    }
  }

  lemma {:induction false} UpperJoin(ws: seq<string>)
    ensures Upper(Join(ws, " ")) == Join(UpperAll(ws), " ")
  {
    if |ws| > 1 {
      UpperJoin(ws[1..]);
      UpperConcat(ws[0] + " ", Join(ws[1..], " "));
      UpperConcat(ws[0], " ");
      assert Upper(" ") == " ";
      assert UpperAll(ws)[1..] == UpperAll(ws[1..]);
    }
  }

  lemma CleanIsCollapsed(s: string)
    ensures Words(Clean(s)) == UpperAll(Words(s))
    ensures Collapse(Clean(s)) == Clean(s) && Clean(Collapse(s)) == Clean(s) && Clean(Clean(s)) == Clean(s)
    ensures Clean(s) == "" <==> Collapse(s) == ""
  {
    var ws := Words(s);
    UpperJoin(ws);
    forall i | 0 <= i < |ws| ensures IsWord(UpperAll(ws)[i]) {
      UpperIsWord(ws[i]);
    }
    WordsOfJoin(UpperAll(ws));
    CollapseIdempotent(s);
    UpperIdempotent(Collapse(s));
  }

  lemma CleanIsOneLine(s: string)
    ensures OneLine(Clean(s))
  {
    CollapsedIsOneLine(s);
    forall i | 0 <= i < |Clean(s)| ensures Clean(s)[i] != '\n' {
      UpperKeepsSpaces(Collapse(s)[i]);
    }
  }

  lemma OptOfCollapsed(s: Option<string>)
    ensures s.Some? ==> Opt(Some(Collapse(s.value))) == Opt(s)
    ensures Opt(s).Some? ==> Opt(s).value != "" && OneLine(Opt(s).value)
  {
    if s.Some? {
      CollapseIdempotent(s.value);
      CollapsedIsOneLine(s.value);
    }
  }

  // ---- Lines -----------------------------------------------------------------------------------

  ghost predicate AllOneLine(lines: seq<string>) {
    forall i :: 0 <= i < |lines| ==> OneLine(lines[i])
  }

  predicate Free(s: string, c: char) {
    forall i :: 0 <= i < |s| ==> s[i] != c
  }

  /** How far `s` runs before the first `c`. */
  function RunLength(s: string, c: char): (n: nat)
    ensures n <= |s| && Free(s[..n], c)
    ensures n < |s| ==> s[n] == c
  {
    if s == "" || s[0] == c then 0
    else
      var n := 1 + RunLength(s[1..], c);
      assert s[..n] == [s[0]] + s[1..][..n - 1];
      n
  }

  /** Splitting on every `c`. */
  function Split(s: string, c: char): (parts: seq<string>)
    ensures parts != []
    decreases |s|
  {
    var n := RunLength(s, c);
    if n == |s| then [s] else [s[..n]] + Split(s[n + 1..], c)
  }

  /** The text before and after the first `c`. */
  function SplitOnce(s: string, c: char): Option<(string, string)> {
    var n := RunLength(s, c);
    if n == |s| then None else Some((s[..n], s[n + 1..]))
  }

  function Lines(s: string): seq<string> {
    Split(s, '\n')
  }

  lemma {:induction false} RunThen(l: string, rest: string, c: char)
    requires Free(l, c) && (rest == "" || rest[0] == c)
    ensures RunLength(l + rest, c) == |l|
  {
    if l == "" {
      assert l + rest == rest;
    } else {
      RunThen(l[1..], rest, c);
      assert (l + rest)[1..] == l[1..] + rest;
    }
  }

  lemma SplitAtFirst(a: string, c: char, b: string)
    requires Free(a, c)
    ensures SplitOnce(a + [c] + b, c) == Some((a, b))
  {
    var rest := [c] + b;
    RunThen(a, rest, c);
    var whole := a + rest;
    assert a + [c] + b == whole && whole[..|a|] == a && whole[|a| + 1..] == b;
  }

  /** Splitting recovers exactly the parts joined, when none of them holds the separator. */
  lemma {:induction false} SplitOfJoin(parts: seq<string>, c: char)
    requires parts != [] && forall i :: 0 <= i < |parts| ==> Free(parts[i], c)
    ensures Split(Join(parts, [c]), c) == parts
  {
    if |parts| == 1 {
      RunThen(parts[0], "", c);
      assert parts[0] + "" == parts[0] && parts == [parts[0]];
    } else {
      var rest := [c] + Join(parts[1..], [c]);
      SplitOfJoin(parts[1..], c);
      RunThen(parts[0], rest, c);
      var whole := parts[0] + rest;
      assert Join(parts, [c]) == whole;
      assert whole[..|parts[0]|] == parts[0] && whole[|parts[0]| + 1..] == Join(parts[1..], [c]);
    }
  }

  /** Splitting a document on newlines recovers exactly the lines it was joined from. */
  lemma LinesOfJoin(lines: seq<string>)
    requires lines != [] && AllOneLine(lines)
    ensures Lines(Join(lines, "\n")) == lines
  {
    forall i | 0 <= i < |lines| ensures Free(lines[i], '\n') {
      assert OneLine(lines[i]);
    }
    SplitOfJoin(lines, '\n');
    assert ['\n'] == "\n";
  }
}
