/** Naming parking stands apart, and folding their headings (`disambiguate` and `normalise_heading` in
    `backend/src/bin/xplane_gate_importer.rs`). */
module GateImporter {
  import opened Text
  import opened Decimals

  // ---- Disambiguation --------------------------------------------------------------------------

  /** How many of the first `n` names are `name`. */
  function Occurrences(raw: seq<string>, name: string, n: nat): nat
    requires n <= |raw|
  {
    if n == 0 then 0 else Occurrences(raw, name, n - 1) + if raw[n - 1] == name then 1 else 0
  }

  function Suffixed(name: string, k: nat): string {
    if k > 1 then name + " #" + Show(k) else name
  }

  /** Which occurrence of its own name entry `i` is. */
  function Turn(raw: seq<string>, i: nat): nat
    requires i < |raw|
  {
    Occurrences(raw, raw[i], i + 1)
  }

  /** An entry is as far along its own name as there are entries of that name up to it. */
  lemma {:induction false} OccurrencesCount(raw: seq<string>, name: string, n: nat)
    requires n <= |raw|
    ensures Occurrences(raw, name, n) == |set j | 0 <= j < n && raw[j] == name|
  {
    var now := set j | 0 <= j < n && raw[j] == name;
    if n == 0 {
      assert now == {};
    } else {
      OccurrencesCount(raw, name, n - 1);
      var before := set j | 0 <= j < n - 1 && raw[j] == name;
      assert now == before + if raw[n - 1] == name then {n - 1} else {};
    }
  }

  /** The `k`-th occurrence of a name is left alone for `k == 1`, and otherwise gets ` #k`. */
  function Disambiguated(raw: seq<string>): (r: seq<string>)
    ensures |r| == |raw| && forall i :: 0 <= i < |raw| ==> r[i] == Suffixed(raw[i], Turn(raw, i))
  {
    seq(|raw|, i requires 0 <= i < |raw| => Suffixed(raw[i], Turn(raw, i)))
  }

  method Disambiguate(stands: array<string>)
    modifies stands
    ensures stands[..] == Disambiguated(old(stands[..]))
  {
    hide Show, Occurrences, Turn;
    ghost var raw := stands[..];
    NoneYet(raw);
    var seen: map<string, nat> := map[];
    for i := 0 to stands.Length
      invariant forall k :: 0 <= k < i ==> stands[k] == Suffixed(raw[k], Turn(raw, k))
      invariant forall k :: i <= k < stands.Length ==> stands[k] == raw[k]
      invariant forall name :: (if name in seen then seen[name] else 0) == Occurrences(raw, name, i)
    {
      TurnOf(raw, i);
      var name := stands[i];
      var n := (if name in seen then seen[name] else 0) + 1;
      seen := seen[name := n];
      if n > 1 {
        stands[i] := name + " #" + Show(n);
      }
    }
  }

  lemma NoneYet(raw: seq<string>)
    ensures forall name :: Occurrences(raw, name, 0) == 0
  {
  }

  lemma TurnOf(raw: seq<string>, i: nat)
    requires i < |raw|
    ensures Turn(raw, i) == Occurrences(raw, raw[i], i) + 1
    ensures forall name :: Occurrences(raw, name, i + 1) == Occurrences(raw, name, i) + if raw[i] == name then 1 else 0
  {
  }

  lemma {:induction false} OccurrencesGrow(raw: seq<string>, name: string, m: nat, n: nat)
    requires m <= n <= |raw|
    ensures Occurrences(raw, name, m) <= Occurrences(raw, name, n)
  {
    if m < n {
      OccurrencesGrow(raw, name, m, n - 1);
    }
  }

  /** Two entries of the same name are different occurrences of it. */
  lemma TurnsDiffer(raw: seq<string>, i: nat, j: nat)
    requires i < j < |raw| && raw[i] == raw[j]
    ensures 1 <= Turn(raw, i) < Turn(raw, j)
  {
    OccurrencesGrow(raw, raw[j], i + 1, j);
  }

  lemma HashFree(k: nat)
    ensures Free(Show(k), '#') && Free(" ", '#')
  {
    assert AllDigits(Show(k));
  }

  /** The first entry called `name`. */
  lemma {:induction false} FirstTurn(raw: seq<string>, name: string, n: nat) returns (i: nat)
    requires n <= |raw| && name in raw[..n]
    ensures i < n && raw[i] == name && Turn(raw, i) == 1
  {
    if name in raw[..n - 1] {
      i := FirstTurn(raw, name, n - 1);
    } else {
      i := n - 1;
      assert raw[i] == name;
      NoneBefore(raw, name, n - 1);
    }
  }

  lemma {:induction false} NoneBefore(raw: seq<string>, name: string, n: nat)
    requires n <= |raw| && name !in raw[..n]
    ensures Occurrences(raw, name, n) == 0
  {
    if n > 0 {
      assert raw[n - 1] in raw[..n];
      NoneBefore(raw, name, n - 1);
    }
  }

  /** Suffixes are told apart by what follows the last `#`. */
  lemma SuffixedInjective(a: string, j: nat, b: string, k: nat)
    requires j > 1 && k > 1 && Suffixed(a, j) == Suffixed(b, k)
    ensures a == b && j == k
  {
    HashFree(j);
    HashFree(k);
    SplitsAtLastHash(a, Show(j));
    SplitsAtLastHash(b, Show(k));
    var whole := Suffixed(a, j);
    assert a == whole[..|a|] && b == whole[..|b|];
    assert Show(j) == whole[|a| + 2..] && Show(k) == whole[|b| + 2..];
    ShowInjective(j, k);
  }

  ghost predicate LastHashAt(s: string, n: int) {
    0 <= n < |s| && s[n] == '#' && forall k :: n < k < |s| ==> s[k] != '#'
  }

  lemma SplitsAtLastHash(a: string, digits: string)
    requires Free(digits, '#')
    ensures LastHashAt(a + " #" + digits, |a| + 1)
  {
    var whole := a + " #" + digits;
    forall k | |a| + 1 < k < |whole| ensures whole[k] != '#' {
      assert whole[k] == digits[k - |a| - 2];
    }
  }

  ghost predicate AllDifferent(s: seq<string>) {
    forall i, j :: 0 <= i < j < |s| ==> s[i] != s[j]
  }

  /** No repeated name, once suffixed, is already some other entry's name. */
  ghost predicate NoneTaken(raw: seq<string>) {
    forall i :: 0 <= i < |raw| && Turn(raw, i) > 1 ==> Suffixed(raw[i], Turn(raw, i)) !in raw
  }

  /** The names come out all different exactly when no suffixed name was already there. */
  lemma DifferentIffNoneTaken(raw: seq<string>)
    ensures AllDifferent(Disambiguated(raw)) <==> NoneTaken(raw)
  {
    var r := Disambiguated(raw);
    if !NoneTaken(raw) {
      var i :| 0 <= i < |raw| && Turn(raw, i) > 1 && Suffixed(raw[i], Turn(raw, i)) in raw;
      assert raw[..|raw|] == raw;
      var j := FirstTurn(raw, Suffixed(raw[i], Turn(raw, i)), |raw|);
      assert r[i] == r[j] && i != j;
    } else {
      forall i, j | 0 <= i < j < |r| ensures r[i] != r[j] {
        StayApart(raw, i, j);
      }
    }
  }

  lemma StayApart(raw: seq<string>, i: nat, j: nat)
    requires NoneTaken(raw) && i < j < |raw|
    ensures Suffixed(raw[i], Turn(raw, i)) != Suffixed(raw[j], Turn(raw, j))
  {
    var (m, n) := (Turn(raw, i), Turn(raw, j));
    assert raw[i] in raw && raw[j] in raw;
    if raw[i] == raw[j] {
      TurnsDiffer(raw, i, j);
      if m > 1 && Suffixed(raw[i], m) == Suffixed(raw[j], n) {
        SuffixedInjective(raw[i], m, raw[j], n);
        assert false;
      }
    } else if m > 1 && n > 1 && Suffixed(raw[i], m) == Suffixed(raw[j], n) {
      SuffixedInjective(raw[i], m, raw[j], n);
      assert false;
    }
  }

  /** It can fail: the second `S` becomes the third stand's own name. */
  lemma CanCollide()
    ensures var r := Disambiguated(["S", "S", "S #2"]); r[1] == r[2] == "S #2"
  {
    var raw := ["S", "S", "S #2"];
    assert Turn(raw, 0) == 1;
    assert Turn(raw, 1) == 2 by { assert Occurrences(raw, "S", 1) == 1; }
    assert Occurrences(raw, "S #2", 2) == 0 by { assert Occurrences(raw, "S #2", 1) == 0; }
    assert Show(2) == "2";
    assert "S" + " #" + "2" == "S #2";
  }

  // ---- Headings --------------------------------------------------------------------------------

  /** The remainder in `[0, 360)`. */
  function Folded(deg: real): (r: real)
    ensures 0.0 <= r < 360.0
  {
    deg - 360.0 * (deg / 360.0).Floor as real
  }

  /** Folded, then rounded to a tenth. */
  function NormaliseHeading(deg: real): real {
    Rounded(Folded(deg) * 10.0) as real / 10.0
  }

  /** The result is a whole number of tenths, and within half a tenth of the heading less some number of turns. */
  lemma HeadingIsNearestTenth(deg: real)
    ensures (NormaliseHeading(deg) * 10.0).Floor as real == NormaliseHeading(deg) * 10.0
    ensures exists turns: int :: NearAfter(deg, turns, NormaliseHeading(deg))
  {
    assert NormaliseHeading(deg) * 10.0 == Rounded(Folded(deg) * 10.0) as real;
    assert NearAfter(deg, (deg / 360.0).Floor, NormaliseHeading(deg));
  }

  ghost predicate NearAfter(deg: real, turns: int, r: real) {
    -0.05 <= deg - 360.0 * turns as real - r <= 0.05
  }

  /** The result is in `[0, 360)`, as the extract promises, exactly when the folded heading is below 359.95:
      from there up it rounds to 360. */
  lemma HeadingInRangeIff(deg: real)
    ensures 0.0 <= NormaliseHeading(deg) <= 360.0
    ensures NormaliseHeading(deg) < 360.0 <==> Folded(deg) < 359.95
    ensures Folded(deg) >= 359.95 ==> NormaliseHeading(deg) == 360.0
  {
  }

  /** A stand that faces a hair west of north is filed at 360. */
  lemma HeadingRoundsTo360()
    ensures NormaliseHeading(359.97) == 360.0
  {
    assert (359.97 / 360.0).Floor == 0;
    HeadingInRangeIff(359.97);
  }

  /** A full turn does not show. */
  lemma FullTurnsDoNotShow(deg: real, turns: int)
    ensures NormaliseHeading(deg + 360.0 * turns as real) == NormaliseHeading(deg)
  {
    FloorShifts(deg / 360.0, turns);
    TurnsDivide(deg, turns);
    assert Folded(deg + 360.0 * turns as real) == Folded(deg);
  }

  lemma TurnsDivide(deg: real, turns: int)
    ensures (deg + 360.0 * turns as real) / 360.0 == deg / 360.0 + turns as real
  {
  }

  lemma FloorShifts(x: real, n: int)
    ensures (x + n as real).Floor == x.Floor + n
  {
  }
}
