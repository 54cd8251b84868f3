/** Names of the parts of a compound file: how they are built and how they are recognised. */
module PartNames {

  datatype Option<+T> = None | Some(value: T)

  const SUFFIX := ".marcfs-part-"

  predicate IsDigit(c: char) {
    '0' <= c <= '9'
  }

  predicate AllDigits(s: string) {
    forall i :: 0 <= i < |s| ==> IsDigit(s[i])
  }

  function DigitChar(d: nat): (c: char)
    requires d < 10
  {
    '0' + d as char
  }

  /** Decimal rendering, as `std::to_string` produces it. */
  function Decimal(n: nat): string {
    if n < 10 then [DigitChar(n)] else Decimal(n / 10) + [DigitChar(n % 10)]
  }

  /** The number a digit string denotes; leading zeros do not matter. */
  function Value(s: string): nat
    requires AllDigits(s)
  {
    if s == [] then 0 else 10 * Value(s[..|s| - 1]) + (s[|s| - 1] - '0') as nat
  }

  lemma {:induction false} ValueOfDecimal(n: nat)
    ensures Decimal(n) != [] && AllDigits(Decimal(n)) && Value(Decimal(n)) == n
  {
    if n >= 10 {
      ValueOfDecimal(n / 10);
      var s := Decimal(n);
      assert s[..|s| - 1] == Decimal(n / 10);
    } else {
      var s := Decimal(n);
      assert s[..|s| - 1] == [];
    }
  }

  function PartName(path: string, idx: nat): string {
    path + SUFFIX + Decimal(idx)
  }

  /** What the `.` of the regular expression accepts. */
  predicate AnyChar(c: char) {
    c != '\n' && c != '\r'
  }

  predicate NoLineEnd(s: string) {
    forall i :: 0 <= i < |s| ==> AnyChar(s[i])
  }

  /** `name` can be read as base, suffix, digits with the base ending at position `p`. */
  predicate SplitsAt(name: string, p: nat) {
    && 0 < p
    && p + |SUFFIX| < |name|
    && NoLineEnd(name[..p])
    && name[p..p + |SUFFIX|] == SUFFIX
    && AllDigits(name[p + |SUFFIX|..])
  }

  /** Length of the longest digit tail. */
  function DigitTail(s: string): (n: nat)
    ensures n <= |s| && AllDigits(s[|s| - n..])
    ensures n < |s| ==> !IsDigit(s[|s| - n - 1])
  {
    if s == [] || !IsDigit(s[|s| - 1]) then 0
    else
      var front := s[..|s| - 1];
      var n := DigitTail(front);
      assert s[|s| - n - 1..] == front[|front| - n..] + [s[|s| - 1]];
      n + 1
  }

  /** The digit tail reaches back exactly to the last character that is not a digit. */
  lemma {:induction false} DigitTailEndsAt(s: string, cut: nat)
    requires 0 < cut <= |s| && !IsDigit(s[cut - 1]) && AllDigits(s[cut..])
    ensures |s| - DigitTail(s) == cut
  {
  }

  lemma SplitAtTail(name: string, p: nat)
    requires SplitsAt(name, p)
    ensures |name| - DigitTail(name) == p + |SUFFIX|
  {
    assert name[p + |SUFFIX| - 1] == name[p..p + |SUFFIX|][|SUFFIX| - 1] == '-';
    DigitTailEndsAt(name, p + |SUFFIX|);
  }

  /** The regular expression has at most one way to match, so greediness plays no role. */
  lemma SplitUnique(name: string, p: nat, q: nat)
    requires SplitsAt(name, p) && SplitsAt(name, q)
    ensures p == q
  {
    SplitAtTail(name, p);
    SplitAtTail(name, q);
  }

  /** The matcher's search: `(.+)` is greedy, so the longest base is tried first; 0 when none fits. */
  function Backtrack(name: string, p: nat): (q: nat)
    requires p <= |name|
    ensures q <= p
  {
    if p == 0 || SplitsAt(name, p) then p else Backtrack(name, p - 1)
  }

  /** The base a part name belongs to, if the whole name matches the regular expression. */
  function BaseOf(name: string): Option<string> {
    var p := Backtrack(name, |name|);
    if p == 0 then None else Some(name[..p])
  }

  lemma {:induction false} BacktrackFinds(name: string, p: nat, q: nat)
    requires p <= |name| && SplitsAt(name, q)
    ensures Backtrack(name, p) == if q <= p then q else 0
  {
    if p > 0 && !SplitsAt(name, p) {
      BacktrackFinds(name, p - 1, q);
    } else if p > 0 {
      SplitUnique(name, p, q);
    }
  }

  lemma {:induction false} BacktrackSplits(name: string, p: nat)
    requires p <= |name|
    ensures Backtrack(name, p) > 0 ==> SplitsAt(name, Backtrack(name, p))
  {
    if p > 0 && !SplitsAt(name, p) {
      BacktrackSplits(name, p - 1);
    }
  }

  /** The computed base is exactly what the regular expression captures. */
  lemma BaseOfIsMatch(name: string, base: string)
    ensures BaseOf(name) == Some(base) <==> SplitsAt(name, |base|) && name[..|base|] == base
  {
    BacktrackSplits(name, |name|);
    if SplitsAt(name, |base|) && name[..|base|] == base {
      BacktrackFinds(name, |name|, |base|);
    }
  }

  /** Said without the search: a part name is a base, the suffix and digits, and no line end in the base. */
  lemma BaseOfIff(name: string, base: string)
    ensures BaseOf(name) == Some(base) <==>
            && base != [] && '\n' !in base && '\r' !in base
            && exists digits: string :: digits != [] && name == base + ".marcfs-part-" + digits
                                        && forall i :: 0 <= i < |digits| ==> '0' <= digits[i] <= '9'
  {
    BaseOfIsMatch(name, base);
    if BaseOf(name) == Some(base) {
      var digits := name[|base| + |SUFFIX|..];
      assert name == base + ".marcfs-part-" + digits && AllDigits(digits);
      assert forall c :: c in base ==> AnyChar(c);
    }
    if base != [] && '\n' !in base && '\r' !in base {
      if digits: string :| digits != [] && name == base + ".marcfs-part-" + digits && AllDigits(digits) {
        assert name[..|base|] == base && name[|base| + |SUFFIX|..] == digits;
        assert name[|base|..|base| + |SUFFIX|] == SUFFIX;
        assert forall i :: 0 <= i < |base| ==> base[i] in base;
        assert SplitsAt(name, |base|);
      }
    }
  }

  lemma PartNameExample()
    ensures PartName("/d/film", 120) == "/d/film.marcfs-part-120"
    ensures PartName("/d/film", 9) == "/d/film.marcfs-part-9"
  {
    assert Decimal(120) == Decimal(12) + ['0'] && Decimal(12) == Decimal(1) + ['2'];
    assert Decimal(120) == "120";
  }

  lemma PartEndsInDigit(name: string)
    ensures BaseOf(name).Some? ==> name != [] && IsDigit(name[|name| - 1])
  {
    var base := BaseOf(name);
    if base.Some? {
      BaseOfIsMatch(name, base.value);
      var tail := name[|base.value| + |SUFFIX|..];
      assert tail[|tail| - 1] == name[|name| - 1];
    }
  }

  /** A part name is taken apart again into the base it was built from, whatever the base contains. */
  lemma BaseOfPartName(base: string, idx: nat)
    requires base != [] && NoLineEnd(base)
    ensures BaseOf(PartName(base, idx)) == Some(base)
  {
    var name := PartName(base, idx);
    ValueOfDecimal(idx);
    assert name[..|base|] == base;
    assert name[|base|..|base| + |SUFFIX|] == SUFFIX;
    assert name[|base| + |SUFFIX|..] == Decimal(idx);
    BaseOfIsMatch(name, base);
  }

  /** The number at the end of a part name. */
  function IndexOf(name: string): nat {
    Value(name[|name| - DigitTail(name)..])
  }

  lemma IndexOfPartName(path: string, idx: nat)
    ensures IndexOf(PartName(path, idx)) == idx
  {
    var name := PartName(path, idx);
    ValueOfDecimal(idx);
    var cut := |path| + |SUFFIX|;
    assert name[cut..] == Decimal(idx);
    assert name[cut - 1] == '-';
    DigitTailEndsAt(name, cut);
  }

  /** No two (path, index) pairs share a part name. */
  lemma PartNameInjective(p: string, i: nat, q: string, j: nat)
    requires PartName(p, i) == PartName(q, j)
    ensures p == q && i == j
  {
    IndexOfPartName(p, i);
    IndexOfPartName(q, j);
    var name := PartName(p, i);
    assert |p| == |q|;
    assert name[..|p|] == p && name[..|q|] == q;
  }
}
