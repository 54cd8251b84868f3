/** The traffic dump: rows of bytes, as hexadecimal and text, or as text broken at line ends. */
module Dump {
  import opened Bytes

  const CR: Byte := 0x0D
  const LF: Byte := 0x0A

  function Shown(b: Byte): char {
    if 0x20 <= b < 0x80 then b as char else '.'
  }

  predicate LineEnd(s: Content) {
    2 <= |s| && s[0] == CR && s[1] == LF
  }

  /** What is to be read in the text column: every byte, or every byte that is not in a line end. */
  function Text(s: Content, nohex: bool): string {
    if s == [] then []
    else if nohex && LineEnd(s) then Text(s[2..], nohex)
    else [Shown(s[0])] + Text(s[1..], nohex)
  }

  function From(s: Content, i: nat): Content {
    if i <= |s| then s[i..] else []
  }

  datatype Row = Row(offset: nat, hex: Content, blanks: nat, text: string)

  function AllText(rows: seq<Row>): string {
    if rows == [] then [] else AllText(rows[..|rows| - 1]) + rows[|rows| - 1].text
  }

  function AllHex(rows: seq<Row>): Content {
    if rows == [] then [] else AllHex(rows[..|rows| - 1]) + rows[|rows| - 1].hex
  }

  predicate LineEndAt(s: Content, i: nat) {
    i + 1 < |s| && s[i] == CR && s[i + 1] == LF
  }

  /** The text shows the bytes from `start` on: printable ones as they are, others as a dot. */
  predicate ShowsBytes(text: string, s: Content, start: nat) {
    && start + |text| <= |s|
    && forall j :: 0 <= j < |text| ==>
         text[j] as int == if 0x20 <= s[start + j] < 0x80 then s[start + j] as int else '.' as int
  }

  /** A row of text ends before a line end, which is then passed over, or is as wide as it can be. */
  predicate RowEnds(s: Content, start: nat, length: nat, next: nat, nohex: bool, width: nat) {
    && (forall j :: start <= j < start + length ==> !(nohex && LineEndAt(s, j)))
    && if nohex && LineEndAt(s, start + length) then next == start + length + 2
       else next == start + width && length == Min(width, |s| - start)
  }

  lemma TextStep(s: Content, i: nat, nohex: bool)
    requires i < |s|
    ensures nohex && LineEndAt(s, i) ==> Text(From(s, i), nohex) == Text(From(s, i + 2), nohex)
    ensures !(nohex && LineEndAt(s, i)) ==> Text(From(s, i), nohex) == [Shown(s[i])] + Text(From(s, i + 1), nohex)
  {
  }

  lemma NoWrap(n: nat)
    requires n < 0x1_0000_0000_0000_0000
    ensures U64(n) == n
  {
  }

  /** The hexadecimal column of one row, blank cells after the end. */
  method HexColumn(ptr: Content, i: nat, width: nat) returns (hex: Content, blanks: nat)
    requires i < |ptr| < 0x8000_0000_0000_0000 && width < 0x1000
    ensures hex == ptr[i..Min(|ptr|, i + width)] && |hex| + blanks == width
  {
    hex, blanks := [], 0;
    for c := 0 to width
      invariant hex == ptr[i..Min(|ptr|, i + c)] && |hex| + blanks == c
    {
      if U64(i + c) < |ptr| {
        hex := hex + [ptr[i + c]];
      } else {
        blanks := blanks + 1;
      }
    }
  }

  /** The text column of one row. On a line end `i` moves so far, or wraps so far back, that the row
      increment that follows lands right behind it. */
  method TextColumn(ptr: Content, start: nat, nohex: bool, width: nat) returns (text: string, i: nat)
    requires start < |ptr| < 0x8000_0000_0000_0000 && 0 < width < 0x1000
    ensures start < U64(i + width) <= start + width + 2
    ensures !nohex ==> U64(i + width) == start + width
    ensures text + Text(From(ptr, U64(i + width)), nohex) == Text(From(ptr, start), nohex)
    ensures |text| <= width
    ensures ShowsBytes(text, ptr, start) && RowEnds(ptr, start, |text|, U64(i + width), nohex, width)
  {
    hide Text, U64, From, ShowsBytes, Shown;
    ShowsNothing(ptr, start);
    i := start;
    text := [];
    var c := 0;
    NoWrap(start);
    NoWrap(start + width);
    while c < width && U64(i + c) < |ptr|
      invariant i == start && 0 <= c <= width && start + c <= |ptr| && |text| == c && U64(start + c) == start + c
      invariant text + Text(From(ptr, start + c), nohex) == Text(From(ptr, start), nohex)
      invariant ShowsBytes(text, ptr, start) && forall j :: start <= j < start + c ==> !(nohex && LineEndAt(ptr, j))
      invariant c > 0 ==> !(nohex && LineEndAt(ptr, start + c))
    {
      NoWrap(start + c + 1);
      NoWrap(start + c + 2);
      TextStep(ptr, start + c, nohex);
      if nohex && U64(i + c + 1) < |ptr| && ptr[i + c] == CR && ptr[i + c + 1] == LF {
        i := U64(i + U64(c + 2 - width));
        Lands(start, c + 2, width);
        return;
      }
      ShowsMore(text, ptr, start);
      text := text + [Shown(ptr[i + c])];
      if nohex && U64(i + c + 2) < |ptr| && ptr[i + c + 1] == CR && ptr[i + c + 2] == LF {
        TextStep(ptr, start + c + 1, nohex);
        i := U64(i + U64(c + 3 - width));
        Lands(start, c + 3, width);
        return;
      }
      c := c + 1;
    }
    if start + c == |ptr| {
      NothingLeft(ptr, start + c, start + width, nohex);
    }
  }

  lemma ShowsNothing(s: Content, start: nat)
    requires start <= |s|
    ensures ShowsBytes([], s, start)
  {
  }

  lemma ShowsMore(text: string, s: Content, start: nat)
    requires ShowsBytes(text, s, start) && start + |text| < |s|
    ensures ShowsBytes(text + [Shown(s[start + |text|])], s, start)
  {
  }

  lemma NothingLeft(s: Content, i: nat, j: nat, nohex: bool)
    requires i == |s| <= j
    ensures Text(From(s, i), nohex) == Text(From(s, j), nohex)
  {
  }

  /** Unsigned wrap-around cancels: stepping back below zero and forward again is a plain step. */
  lemma Lands(start: nat, step: nat, width: nat)
    requires start < 0x8000_0000_0000_0000 && step < 0x2000 && width < 0x1000
    ensures U64(U64(start + U64(step - width)) + width) == start + step
  {
    hide U64;
    var w: int := 0x1_0000_0000_0000_0000;
    OneTurn(step - width);
    var back := U64(step - width);
    assert back == if step < width then step - width + w else step - width;
    OneTurn(start + back);
    OneTurn(U64(start + back) + width);
  }

  /** An unsigned value that is at most one turn off. */
  lemma OneTurn(n: int)
    requires -0x1_0000_0000_0000_0000 <= n < 2 * 0x1_0000_0000_0000_0000
    ensures U64(n) == if n < 0 then n + 0x1_0000_0000_0000_0000
                      else if n < 0x1_0000_0000_0000_0000 then n
                      else n - 0x1_0000_0000_0000_0000
  {
  }

  /** No row is wider than the screen; in hex mode each has sixteen cells. */
  predicate RowFits(r: Row, nohex: bool) {
    |r.text| <= (if nohex then 0x80 else 0x10) && (!nohex ==> |r.hex| + r.blanks == 0x10)
  }

  lemma NoRows()
    ensures AllText([]) == [] && AllHex([]) == []
  {
  }

  lemma Regroup(a: string, b: string, c: string)
    ensures a + (b + c) == (a + b) + c
  {
  }

  lemma RowsSnoc(rows: seq<Row>, row: Row)
    ensures AllText(rows + [row]) == AllText(rows) + row.text
    ensures AllHex(rows + [row]) == AllHex(rows) + row.hex
  {
  }

  /** A row has the bytes from its offset on, and ends where the next one begins. */
  predicate RowOk(s: Content, r: Row, next: nat, nohex: bool) {
    var width := if nohex then 0x80 else 0x10;
    && r.offset < |s| && ShowsBytes(r.text, s, r.offset)
    && RowEnds(s, r.offset, |r.text|, next, nohex, width)
    && r.hex == if nohex then [] else s[r.offset..Min(|s|, r.offset + 0x10)]
  }

  /** Where the row after row `k` begins. */
  function NextStart(rows: seq<Row>, k: nat, end: nat): nat
    requires k < |rows|
  {
    if k + 1 < |rows| then rows[k + 1].offset else end
  }

  /** The rows begin at the start, each where the one before has ended. */
  predicate RowsOf(s: Content, rows: seq<Row>, end: nat, nohex: bool) {
    && (if rows == [] then end == 0 else rows[0].offset == 0)
    && forall k :: 0 <= k < |rows| ==>
         RowOk(s, rows[k], NextStart(rows, k, end), nohex)
  }

  lemma RowsMore(s: Content, rows: seq<Row>, end: nat, row: Row, end': nat, nohex: bool)
    requires RowsOf(s, rows, end, nohex) && row.offset == end && RowOk(s, row, end', nohex)
    ensures RowsOf(s, rows + [row], end', nohex)
  {
    hide RowOk;
    var more := rows + [row];
    forall k | 0 <= k < |more|
      ensures RowOk(s, more[k], NextStart(more, k, end'), nohex)
    {
      if k < |rows| {
        assert RowOk(s, rows[k], NextStart(rows, k, end), nohex);
        assert more[k] == rows[k] && NextStart(more, k, end') == NextStart(rows, k, end);
      }
    }
  }

  /** The dump ends, and shows each byte once: in both columns in hex mode, and in text mode
      every byte outside the line ends. */
  method DumpRows(ptr: Content, nohex: bool) returns (rows: seq<Row>)
    requires |ptr| < 0x8000_0000_0000_0000
    ensures AllText(rows) == Text(ptr, nohex)
    ensures !nohex ==> AllHex(rows) == ptr
    ensures forall r :: r in rows ==> RowFits(r, nohex)
    ensures exists end: nat :: end >= |ptr| && RowsOf(ptr, rows, end, nohex)
    ensures (!nohex || forall i :: 0 <= i < |ptr| - 1 ==> !(ptr[i] == 0x0D && ptr[i + 1] == 0x0A)) ==>
              && |AllText(rows)| == |ptr|
              && forall i :: 0 <= i < |ptr| ==>
                   AllText(rows)[i] as int == if 0x20 <= ptr[i] < 0x80 then ptr[i] as int else '.' as int
  {
    hide Text, From, U64, AllText, AllHex, ShowsBytes, RowEnds, RowsOf;
    var size := |ptr|;
    var width := if nohex then 0x80 else 0x10;
    rows := [];
    var i := 0;
    NoRows();
    assert RowsOf(ptr, rows, 0, nohex) by {
      EmptyRows(ptr, nohex);
    }
    Bounds(ptr, 0, nohex);
    while i < size
      invariant AllText(rows) + Text(From(ptr, i), nohex) == Text(ptr, nohex)
      invariant !nohex ==> AllHex(rows) == ptr[..Min(i, size)]
      invariant forall r :: r in rows ==> RowFits(r, nohex)
      invariant RowsOf(ptr, rows, i, nohex)
      decreases if i < size then size - i else 0
    {
      var offset := i;
      var hex: Content, blanks := [], 0;
      if !nohex {
        hex, blanks := HexColumn(ptr, offset, width);
        assert ptr[..offset] + hex == ptr[..Min(size, offset + width)];
      }
      var text;
      text, i := TextColumn(ptr, offset, nohex, width);
      RowsMore(ptr, rows, offset, Row(offset, hex, blanks, text), U64(i + width), nohex);
      RowsSnoc(rows, Row(offset, hex, blanks, text));
      Regroup(AllText(rows), text, Text(From(ptr, U64(i + width)), nohex));
      rows := rows + [Row(offset, hex, blanks, text)];
      i := U64(i + width);
    }
    Bounds(ptr, i, nohex);
    if !nohex || forall i :: 0 <= i < |ptr| - 1 ==> !(ptr[i] == CR && ptr[i + 1] == LF) {
      TextPlain(ptr, nohex);
    }
  }

  lemma EmptyRows(s: Content, nohex: bool)
    ensures RowsOf(s, [], 0, nohex)
  {
  }

  lemma Bounds(s: Content, i: nat, nohex: bool)
    ensures i == 0 ==> From(s, i) == s
    ensures i >= |s| ==> Text(From(s, i), nohex) == []
  {
  }

  /** Without line ends the text has a character per byte, in order. */
  lemma {:induction false} TextPlain(s: Content, nohex: bool)
    requires !nohex || forall i :: 0 <= i < |s| - 1 ==> !(s[i] == CR && s[i + 1] == LF)
    ensures |Text(s, nohex)| == |s|
    ensures forall i :: 0 <= i < |s| ==>
              Text(s, nohex)[i] as int == if 0x20 <= s[i] < 0x80 then s[i] as int else '.' as int
  {
    if s != [] {
      TextPlain(s[1..], nohex);
      assert forall i :: 0 < i < |s| ==> s[i] == s[1..][i - 1];
      assert Text(s, nohex) == [Shown(s[0])] + Text(s[1..], nohex);
    }
  }

  /** Lines, each followed by a line end. */
  function Joined(lines: seq<Content>): Content {
    if lines == [] then [] else lines[0] + [0x0D, 0x0A] + Joined(lines[1..])
  }

  predicate Printable(s: Content) {
    forall i :: 0 <= i < |s| ==> 0x20 <= s[i] < 0x80
  }

  /** Printable lines read back as they are, without the line ends. */
  lemma {:induction false} TextOfLines(lines: seq<Content>)
    requires forall k :: 0 <= k < |lines| ==> Printable(lines[k])
    ensures |Text(Joined(lines), true)| == |Concat(lines)|
    ensures forall i :: 0 <= i < |Concat(lines)| ==> Text(Joined(lines), true)[i] as int == Concat(lines)[i] as int
  {
    if lines != [] {
      var first, rest := lines[0], lines[1..];
      TextOfLines(rest);
      TextCut(first, Joined(rest));
      TextPlain(first, true);
      assert Text(Joined(lines), true) == Text(first, true) + Text(Joined(rest), true);
      assert Concat(lines) == first + Concat(rest);
    }
  }

  /** A line end disappears wherever it stands. */
  lemma {:induction false} TextCut(a: Content, b: Content)
    ensures Text(a + [CR, LF] + b, true) == Text(a, true) + Text(b, true)
  {
    var s := a + [CR, LF] + b;
    if a == [] {
      assert s[2..] == b && LineEnd(s);
    } else if LineEnd(a) {
      assert s[2..] == a[2..] + [CR, LF] + b && LineEnd(s);
      TextCut(a[2..], b);
    } else {
      assert s[1..] == a[1..] + [CR, LF] + b;
      assert s[0] == a[0] && !LineEnd(s);
      TextCut(a[1..], b);
      assert Text(s, true) == [Shown(s[0])] + Text(s[1..], true);
    }
  }
}
