/** How the merger names its output columns, and that the names identify buffer and column. */
module Naming {
  import opened TimeTables
  import opened RowQueues

  // ----- decimal numbers -----

  const DIGITS := "0123456789"

  function Decimal(n: nat): string {
    if n < 10 then [DIGITS[n]] else Decimal(n / 10) + [DIGITS[n % 10]]
  }

  function ZeroPad(s: string, width: nat): string
    decreases width - |s|
  {
    if |s| >= width then s else ZeroPad("0" + s, width)
  }

  function DigitValue(c: char): nat { if '0' <= c <= '9' then (c - '0') as nat else 0 }

  function ParseDecimal(s: string): nat {
    if s == [] then 0 else 10 * ParseDecimal(s[..|s| - 1]) + DigitValue(s[|s| - 1])
  }

  lemma {:induction false} ParseLeadingZero(s: string)
    ensures ParseDecimal("0" + s) == ParseDecimal(s)
  {
    if s == [] {
      assert ("0" + s)[..0] == [];
    } else {
      ParseLeadingZero(s[..|s| - 1]);
      assert ("0" + s)[..|s|] == "0" + s[..|s| - 1];
    }
  }

  lemma {:induction false} ParseZeroPad(s: string, width: nat)
    ensures ParseDecimal(ZeroPad(s, width)) == ParseDecimal(s)
    decreases width - |s|
  {
    if |s| < width {
      ParseZeroPad("0" + s, width);
      ParseLeadingZero(s);
    }
  }

  lemma {:induction false} ParseDigit(s: string, d: nat)
    requires d < 10
    ensures ParseDecimal(s + [DIGITS[d]]) == 10 * ParseDecimal(s) + d
  {
    assert (s + [DIGITS[d]])[..|s|] == s;
  }

  /** Printing and reading back: a zero-padded decimal number is recovered. */
  lemma {:induction false} ParseDecimalRoundTrip(n: nat)
    ensures ParseDecimal(Decimal(n)) == n
  {
    if n < 10 {
      assert [DIGITS[n]][..0] == [];
    } else {
      ParseDecimalRoundTrip(n / 10);
      ParseDigit(Decimal(n / 10), n % 10);
    }
  }

  // ----- column prefixes -----

  /** ceil(log2(total) / log2(16)): the number of hexadecimal digits, although the index is printed in decimal. */
  function Width(total: nat): nat {
    if total <= 1 then 0 else 1 + Width((total + 15) / 16)
  }

  function Pow16(w: nat): nat { if w == 0 then 1 else 16 * Pow16(w - 1) }

  lemma {:induction false} WidthIsCeilLog16(total: nat)
    requires total >= 1
    ensures total <= Pow16(Width(total))
    ensures Width(total) == 0 <==> total == 1
    ensures total > 1 ==> Pow16(Width(total) - 1) < total
  {
    if total > 1 {
      WidthIsCeilLog16((total + 15) / 16);
    }
  }

  function ColPrefix(idx: nat, total: nat): string {
    "tbl" + ZeroPad(Decimal(idx), Width(total))
  }

  /** The index is readable from the prefix, so different buffers get different prefixes. */
  lemma ColPrefixInjective(i: nat, j: nat, total: nat)
    requires ColPrefix(i, total) == ColPrefix(j, total)
    ensures i == j
  {
    forall n: nat ensures ParseDecimal(ColPrefix(n, total)[3..]) == n {
      assert ColPrefix(n, total)[3..] == ZeroPad(Decimal(n), Width(total));
      ParseZeroPad(Decimal(n), Width(total));
      ParseDecimalRoundTrip(n);
    }
    assert ParseDecimal(ColPrefix(i, total)[3..]) == i;
  }

  ghost predicate AllDigits(s: string) { forall k :: 0 <= k < |s| ==> '0' <= s[k] <= '9' }

  lemma {:induction false} DecimalDigits(n: nat)
    ensures Decimal(n) != [] && AllDigits(Decimal(n)) && (n >= 10 ==> Decimal(n)[0] != '0')
    ensures n < 10 ==> |Decimal(n)| == 1
  {
    if n >= 10 {
      DecimalDigits(n / 10);
      if n / 10 < 10 { NonZeroDigit(n / 10); }
    }
  }

  lemma {:induction false} NonZeroDigit(n: nat)
    requires 0 < n < 10
    ensures Decimal(n)[0] != '0'
  {
  }

  lemma {:induction false} PaddedDigits(s: string, width: nat)
    requires s != [] && AllDigits(s)
    ensures AllDigits(ZeroPad(s, width)) && |ZeroPad(s, width)| == if |s| < width then width else |s|
    ensures |s| >= width ==> ZeroPad(s, width) == s
    decreases width - |s|
  {
    if |s| < width { PaddedDigits("0" + s, width); }
  }

  /**
   * A prefix is "tbl" and the index in decimal digits, at least as many as the
   * width, with zeros in front only to reach it.
   */
  lemma {:induction false} ColPrefixIs(idx: nat, total: nat)
    ensures var p := ColPrefix(idx, total);
      && |p| >= 4 && p[..3] == "tbl" && AllDigits(p[3..]) && ParseDecimal(p[3..]) == idx
      && |p[3..]| >= Width(total) && (|p[3..]| > Width(total) && |p[3..]| > 1 ==> p[3] != '0')
  {
    var d := Decimal(idx);
    DecimalDigits(idx);
    PaddedDigits(d, Width(total));
    assert ColPrefix(idx, total)[3..] == ZeroPad(d, Width(total));
    ParseZeroPad(d, Width(total));
    ParseDecimalRoundTrip(idx);
  }

  // ----- the layout of the merged table -----

  const VALID := ColumnSpec(BoolA, "valid", "valid")

  /** TimeAlignedTable::prefixed_colspec. */
  function PrefixedColSpec(idx: nat, total: nat, pvname: string, spec: ColumnSpec, labelSep: string,
        colSep: string): ColumnSpec {
    ColumnSpec(spec.typ, ColPrefix(idx, total) + colSep + spec.name, pvname + labelSep + spec.labelText)
  }

  /** The columns contributed by one buffer: the valid flag, then its data columns. */
  function BufferColumns(idx: nat, total: nat, pvname: string, specs: seq<ColumnSpec>, labelSep: string,
        colSep: string): (r: seq<ColumnSpec>)
    ensures |r| == 1 + |specs|
  {
    [PrefixedColSpec(idx, total, pvname, VALID, labelSep, colSep)]
    + seq(|specs|, c requires 0 <= c < |specs| => PrefixedColSpec(idx, total, pvname, specs[c], labelSep, colSep))
  }

  function Pieces(names: seq<string>, specs: seq<seq<ColumnSpec>>, labelSep: string,
        colSep: string): (r: seq<seq<ColumnSpec>>)
    requires |names| == |specs|
    ensures |r| == |names|
    ensures forall b :: 0 <= b < |names| ==> r[b] == BufferColumns(b, |names|, names[b], specs[b], labelSep, colSep)
  {
    seq(|names|, b requires 0 <= b < |names| => BufferColumns(b, |names|, names[b], specs[b], labelSep, colSep))
  }

  /** The column with the valid flags of buffer b; its data columns follow. */
  function FlagColumn(specs: seq<seq<ColumnSpec>>, b: nat): nat
    requires b <= |specs|
  {
    NUM_TIME_COLS + b + Offset(specs, b)
  }

  /** Three time columns, then the columns of every buffer in map order. */
  function Layout(names: seq<string>, specs: seq<seq<ColumnSpec>>, labelSep: string, colSep: string): seq<ColumnSpec>
    requires |names| == |specs|
  {
    FromDataColumns(Flatten(Pieces(names, specs, labelSep, colSep)))
  }

  // ----- what stands where in the layout -----

  /** The columns of buffer b: its flags, then its data columns with their own element types, names and labels. */
  ghost predicate BlockLaidOut(columns: seq<ColumnSpec>, at: nat, prefix: string, labelPrefix: string,
        specs: seq<ColumnSpec>) {
    && at + 1 + |specs| <= |columns|
    && columns[at].typ == BoolA && columns[at].name == prefix + "valid"
    && columns[at].labelText == labelPrefix + "valid"
    && forall c :: 0 <= c < |specs| ==>
         && columns[at + 1 + c].typ == specs[c].typ
         && columns[at + 1 + c].name == prefix + specs[c].name
         && columns[at + 1 + c].labelText == labelPrefix + specs[c].labelText
  }

  /** The time columns, then one block for each buffer, and nothing else. */
  ghost predicate LaidOut(columns: seq<ColumnSpec>, names: seq<string>, specs: seq<seq<ColumnSpec>>, labelSep: string,
        colSep: string) {
    && |names| == |specs| && |columns| == FlagColumn(specs, |specs|) && |columns| >= 3
    && columns[0].typ == UInt32A && columns[0].name == "secondsPastEpoch"
    && columns[1].typ == UInt32A && columns[1].name == "nanoseconds"
    && columns[2].typ == UInt64A && columns[2].name == "pulseId"
    && forall b :: 0 <= b < |names| ==>
         BlockLaidOut(columns, FlagColumn(specs, b), ColPrefix(b, |names|) + colSep, names[b] + labelSep, specs[b])
  }

  /** A piece has one column more than its buffer has data columns. */
  lemma {:induction false} PieceOffsets(pieces: seq<seq<ColumnSpec>>, specs: seq<seq<ColumnSpec>>, b: nat)
    requires |pieces| == |specs| && b <= |specs|
    requires forall i :: 0 <= i < |specs| ==> |pieces[i]| == 1 + |specs[i]|
    ensures Offset(pieces, b) == b + Offset(specs, b)
  {
    if b > 0 { PieceOffsets(pieces[1..], specs[1..], b - 1); }
  }

  lemma BlockOfPiece(piece: seq<ColumnSpec>, idx: nat, total: nat, pvname: string, specs: seq<ColumnSpec>,
        labelSep: string, colSep: string)
    requires piece == BufferColumns(idx, total, pvname, specs, labelSep, colSep)
    ensures BlockLaidOut(piece, 0, ColPrefix(idx, total) + colSep, pvname + labelSep, specs)
  {
  }

  lemma BlockMoves(columns: seq<ColumnSpec>, piece: seq<ColumnSpec>, at: nat, prefix: string, labelPrefix: string,
        specs: seq<ColumnSpec>)
    requires BlockLaidOut(piece, 0, prefix, labelPrefix, specs) && |piece| == 1 + |specs|
    requires at + |piece| <= |columns| && columns[at..at + |piece|] == piece
    ensures BlockLaidOut(columns, at, prefix, labelPrefix, specs)
  {
    assert columns[at] == columns[at..at + |piece|][0];
    forall c | 0 <= c < |specs|
      ensures columns[at + 1 + c].typ == specs[c].typ && columns[at + 1 + c].name == prefix + specs[c].name
      ensures columns[at + 1 + c].labelText == labelPrefix + specs[c].labelText
    {
      assert columns[at..at + |piece|][1 + c] == piece[1 + c] && piece[0 + 1 + c].typ == specs[c].typ;
    }
  }

  lemma {:induction false} PieceStandsAt<T>(before: seq<T>, pieces: seq<seq<T>>, b: nat, at: nat)
    requires b < |pieces| && at == |before| + Offset(pieces, b)
    ensures at + |pieces[b]| <= |before + Flatten(pieces)|
    ensures (before + Flatten(pieces))[at..at + |pieces[b]|] == pieces[b]
  {
    FlattenAt(pieces, b, 0);
    forall i | 0 <= i < |pieces[b]| ensures (before + Flatten(pieces))[at + i] == pieces[b][i] {
      FlattenAt(pieces, b, i);
    }
  }

  lemma {:induction false} BlockInLayout(names: seq<string>, specs: seq<seq<ColumnSpec>>, labelSep: string,
        colSep: string, b: nat, pieces: seq<seq<ColumnSpec>>)
    requires |names| == |specs| && b < |names| && pieces == Pieces(names, specs, labelSep, colSep)
    ensures BlockLaidOut(TIME_COLUMNS + Flatten(pieces), FlagColumn(specs, b),
                         ColPrefix(b, |names|) + colSep, names[b] + labelSep, specs[b])
  {
    PieceOffsets(pieces, specs, b);
    PieceStandsAt(TIME_COLUMNS, pieces, b, FlagColumn(specs, b));
    BlockOfPiece(pieces[b], b, |names|, names[b], specs[b], labelSep, colSep);
    BlockMoves(TIME_COLUMNS + Flatten(pieces), pieces[b], FlagColumn(specs, b), ColPrefix(b, |names|) + colSep,
      names[b] + labelSep, specs[b]);
  }

  /** The layout has the time columns first, then for every buffer its flags and its data columns, typed as they are. */
  lemma {:induction false} LayoutIsLaidOut(names: seq<string>, specs: seq<seq<ColumnSpec>>, labelSep: string,
        colSep: string)
    requires |names| == |specs|
    ensures LaidOut(Layout(names, specs, labelSep, colSep), names, specs, labelSep, colSep)
  {
    var pieces := Pieces(names, specs, labelSep, colSep);
    PieceOffsets(pieces, specs, |specs|);
    OffsetEnd(pieces);
    forall b | 0 <= b < |names|
      ensures BlockLaidOut(Layout(names, specs, labelSep, colSep), FlagColumn(specs, b),
                           ColPrefix(b, |names|) + colSep, names[b] + labelSep, specs[b])
    {
      BlockInLayout(names, specs, labelSep, colSep, b, pieces);
    }
  }
}
