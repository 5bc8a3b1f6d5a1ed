/** Code tables, and the bits a symbol is coded as. The coder is proved for any table with an escape entry;
    `PDM_STATIC_TABLE` is the one the source uses. */
module HuffmanTable {
  import opened Bits
  import opened Options
  import opened Sequences

  datatype Code = Code(symbol: int, value: nat, len: nat)

  type Table = seq<Code>

  const INTERNAL_SYMBOL := -32768
  const ESCAPE_SYMBOL := 32767
  const RAW_SYMBOL_BITS: nat := 16

  const PDM_STATIC_TABLE: Table := [
    Code(0, 0x0, 1),
    Code(5, 0x4, 3),
    Code(-5, 0x5, 3),
    Code(6, 0xc, 4),
    Code(-6, 0xd, 4),
    Code(7, 0x1c, 5),
    Code(-7, 0x1d, 5),
    Code(8, 0x3c, 6),
    Code(-8, 0x3d, 6),
    Code(9, 0x7c, 7),
    Code(-9, 0x7d, 7),
    Code(10, 0xfc, 8),
    Code(-10, 0xfd, 8),
    Code(ESCAPE_SYMBOL, 0x7f, 7)
  ]

  /** The first entry for a symbol from position `k` on. */
  function FindFrom(table: Table, symbol: int, k: nat): (r: Option<Code>)
    ensures r.Some? ==> r.value in table && r.value.symbol == symbol
    ensures r.None? ==> forall j :: k <= j < |table| ==> table[j].symbol != symbol
    decreases |table| - k
  {
    if k >= |table| then None
    else if table[k].symbol == symbol then Some(table[k])
    else FindFrom(table, symbol, k + 1)
  }

  method FindCode(table: Table, symbol: int) returns (r: Option<Code>)
    ensures r == FindFrom(table, symbol, 0)
  {
    var i := 0;
    while i < |table|
      invariant 0 <= i <= |table|
      invariant FindFrom(table, symbol, i) == FindFrom(table, symbol, 0)
    {
      if table[i].symbol == symbol {
        return Some(table[i]);
      }
      i := i + 1;
    }
    return None;
  }

  predicate HasEscape(table: Table) {
    FindFrom(table, ESCAPE_SYMBOL, 0).Some?
  }

  function Escape(table: Table): (e: Code)
    requires HasEscape(table)
    ensures e in table && e.symbol == ESCAPE_SYMBOL
  {
    FindFrom(table, ESCAPE_SYMBOL, 0).value
  }

  function PathOf(e: Code): (r: seq<bool>)
    ensures |r| == e.len
  {
    CodeBits(e.value, e.len)
  }

  /** What the encoder writes for one symbol: its code, or the escape code and the symbol's sixteen bits. */
  function SymbolBits(table: Table, symbol: int): (r: seq<bool>)
    requires HasEscape(table) && Int16(symbol)
  {
    match FindFrom(table, symbol, 0)
    case Some(entry) => PathOf(entry)
    case None => PathOf(Escape(table)) + CodeBits(ToUint16(symbol), RAW_SYMBOL_BITS)
  }

  predicate AllInt16(symbols: seq<int>) {
    forall k :: 0 <= k < |symbols| ==> Int16(symbols[k])
  }

  /** What the encoder writes for a sequence, symbol by symbol. */
  function EncodeBits(table: Table, symbols: seq<int>): (r: seq<bool>)
    requires HasEscape(table) && AllInt16(symbols)
  {
    FlatMap(symbols, x requires Int16(x) => SymbolBits(table, x))
  }

  /** The code of a sequence is the codes of its parts in order. */
  lemma EncodeBitsConcat(table: Table, a: seq<int>, b: seq<int>)
    requires HasEscape(table) && AllInt16(a) && AllInt16(b)
    ensures AllInt16(a + b) && EncodeBits(table, a + b) == EncodeBits(table, a) + EncodeBits(table, b)
  {
    FlatMapConcat(a, b, x requires Int16(x) => SymbolBits(table, x));
  }

  lemma EncodeBitsSingle(table: Table, s: int)
    requires HasEscape(table) && Int16(s)
    ensures EncodeBits(table, [s]) == SymbolBits(table, s)
  {
    FlatMapSingle(s, x requires Int16(x) => SymbolBits(table, x));
  }

  /** If each symbol takes between `low` and `high` bits, so do all symbols on average. */
  lemma EncodeBitsBetween(table: Table, symbols: seq<int>, low: nat, high: nat)
    requires HasEscape(table) && AllInt16(symbols)
    requires forall k :: 0 <= k < |symbols| ==> low <= |SymbolBits(table, symbols[k])| <= high
    ensures low * |symbols| <= |EncodeBits(table, symbols)| <= high * |symbols|
  {
    FlatMapLength(symbols, x requires Int16(x) => SymbolBits(table, x), low, high);
  }

  // ---------------------------------------------------------------- the static table

  /** Every code of the static table has one to eight bits, and the escape code seven. */
  lemma StaticTable()
    ensures HasEscape(PDM_STATIC_TABLE) && Escape(PDM_STATIC_TABLE).len == 7
    ensures forall e :: e in PDM_STATIC_TABLE ==> 1 <= e.len <= 8
  {
    var t := PDM_STATIC_TABLE;
    assert t[13].symbol == ESCAPE_SYMBOL;
    assert HasEscape(t);
    forall k | 0 <= k < |t|
      ensures 1 <= t[k].len <= 8 && (t[k].symbol == ESCAPE_SYMBOL ==> t[k].len == 7)
    {
      assert k == 0 || k == 1 || k == 2 || k == 3 || k == 4 || k == 5 || k == 6 || k == 7 || k == 8 || k == 9
        || k == 10 || k == 11 || k == 12 || k == 13;
    }
  }

  /** What the encoder writes with the static table. */
  function StaticBits(symbols: seq<int>): seq<bool>
    requires AllInt16(symbols)
  {
    StaticTable();
    EncodeBits(PDM_STATIC_TABLE, symbols)
  }

  lemma SymbolBitsLength(symbol: int)
    requires Int16(symbol)
    ensures HasEscape(PDM_STATIC_TABLE) && 1 <= |SymbolBits(PDM_STATIC_TABLE, symbol)| <= 23
  {
    StaticTable();
  }

  /** A sequence takes between 1 and 23 bits a symbol. */
  lemma EncodeBitsLength(symbols: seq<int>)
    requires AllInt16(symbols)
    ensures |symbols| <= |StaticBits(symbols)| <= 23 * |symbols|
  {
    StaticTable();
    forall k | 0 <= k < |symbols|
      ensures 1 <= |SymbolBits(PDM_STATIC_TABLE, symbols[k])| <= 23
    {
      SymbolBitsLength(symbols[k]);
    }
    EncodeBitsBetween(PDM_STATIC_TABLE, symbols, 1, 23);
  }
}
