/** Optional values, used for the label lookups that can fail. */
module Options {

  datatype Option<+T> = None | Some(value: T)
}

/**
 Square indexing. The board is a flat array of 64 squares: index `i` lies on
 row `i / 8` (rank `i / 8 + 1`) and column `i % 8` (file `"abcdefgh"[i % 8]`).
 The engine keeps a table of the 64 two-character labels and converts a label
 back to its index by searching that table.
 */
module Squares {
  import opened Options

  const Files: string := "abcdefgh"

  /** Row (0 = White's home rank) of a square index; Python's `//` for a positive divisor. */
  function Row(i: int): int { i / 8 }

  /** Column (0 = file a) of a square index; Python's `%` for a positive divisor. */
  function Col(i: int): int { i % 8 }

  /** The character `str(r + 1)` for a row `r` in [0, 8). */
  function RankDigit(r: int): char
    requires 0 <= r < 8
  {
    ('1' as int + r) as char
  }

  /** The label of square `i`: file letter followed by rank digit. */
  function Label(i: int): string
    requires 0 <= i < 64
  {
    [Files[Col(i)], RankDigit(Row(i))]
  }

  /** The label table, entry `i` being the label of square `i`. */
  function BoardIndex(): seq<string>
  {
    seq(64, i requires 0 <= i < 64 => Label(i))
  }

  /** Builds the label table the way the engine's constructor does: ranks
      outermost, files innermost. */
  method BuildBoardIndex() returns (t: seq<string>)
    ensures |t| == 64
    ensures forall i :: 0 <= i < 64 ==> t[i] == [Files[i % 8], RankDigit(i / 8)]
    ensures t == BoardIndex()
  {
    t := [];
    var num := 0;
    while num < 8
      invariant 0 <= num <= 8
      invariant |t| == 8 * num
      invariant forall i :: 0 <= i < |t| ==> t[i] == [Files[i % 8], RankDigit(i / 8)]
    {
      var f := 0;
      while f < 8
        invariant 0 <= f <= 8
        invariant |t| == 8 * num + f
        invariant forall i :: 0 <= i < |t| ==> t[i] == [Files[i % 8], RankDigit(i / 8)]
      {
        t := t + [[Files[f], RankDigit(num)]];
        f := f + 1;
      }
      num := num + 1;
    }
  }

  /** Python's `xs.index(s)` guarded by `s in xs`: the first position holding `s`. */
  function Find(xs: seq<string>, s: string): (r: Option<nat>)
    ensures r.Some? ==> r.value < |xs| && xs[r.value] == s
    ensures r.Some? ==> forall j :: 0 <= j < r.value ==> xs[j] != s
    ensures r.None? <==> s !in xs
  {
    if |xs| == 0 then None
    else if xs[0] == s then Some(0)
    else match Find(xs[1..], s)
      case None => None
      case Some(k) => Some(k + 1)
  }

  /** Converts a label to its square index by searching the label table. */
  function IndexOf(s: string): Option<nat>
  {
    Find(BoardIndex(), s)
  }

  /** Reference decoder, independent of the table: a lower-case file letter
      a-h followed by a rank digit 1-8. */
  function Parse(s: string): Option<nat>
  {
    if |s| == 2 && 'a' <= s[0] <= 'h' && '1' <= s[1] <= '8'
    then Some(8 * (s[1] as int - '1' as int) + (s[0] as int - 'a' as int))
    else None
  }

  lemma FileLetter(c: int)
    requires 0 <= c < 8
    ensures Files[c] == ('a' as int + c) as char
  {
    if c == 0 {} else if c == 1 {} else if c == 2 {} else if c == 3 {}
    else if c == 4 {} else if c == 5 {} else if c == 6 {} else {}
  }

  lemma RowColOf(r: int, c: int)
    requires 0 <= c < 8
    ensures Row(8 * r + c) == r && Col(8 * r + c) == c
  {
  }

  /** Every table entry decodes back to its own index. */
  lemma LabelParses(i: int)
    requires 0 <= i < 64
    ensures Parse(Label(i)) == Some(i)
  {
    FileLetter(Col(i));
  }

  /** Every string the decoder accepts is the label of the index it decodes to. */
  lemma ParseLabels(s: string)
    ensures Parse(s).Some? ==> Parse(s).value < 64 && Label(Parse(s).value) == s
  {
    if Parse(s).Some? {
      var r, c := s[1] as int - '1' as int, s[0] as int - 'a' as int;
      RowColOf(r, c);
      FileLetter(c);
      assert Label(8 * r + c) == [s[0], s[1]];
    }
  }

  /** Searching the table agrees with the reference decoder on every string. */
  lemma IndexOfIsParse(s: string)
    ensures IndexOf(s) == Parse(s)
  {
    var t := BoardIndex();
    ParseLabels(s);
    if Parse(s).Some? {
      var v := Parse(s).value;
      assert t[v] == s;
      LabelParses(Find(t, s).value);
    } else {
      forall j | 0 <= j < 64
        ensures t[j] != s
      {
        LabelParses(j);
      }
    }
  }

  /** Label to index to label, and index to label to index, both round-trip. */
  lemma LabelRoundTrip(i: int, s: string)
    requires 0 <= i < 64
    ensures IndexOf(Label(i)) == Some(i)
    ensures IndexOf(s) == Some(i) <==> s == Label(i)
  {
    IndexOfIsParse(Label(i));
    LabelParses(i);
    IndexOfIsParse(s);
    ParseLabels(s);
  }

  /** Only the 64 lower-case labels are squares: upper-case files, other
      lengths and out-of-range ranks all fail. */
  lemma OnlyLowerCaseLabels(s: string)
    ensures IndexOf(s).Some? <==> |s| == 2 && 'a' <= s[0] <= 'h' && '1' <= s[1] <= '8'
    ensures IndexOf("A1") == None && IndexOf("a9") == None && IndexOf("a10") == None
  {
    IndexOfIsParse(s);
    IndexOfIsParse("A1");
    IndexOfIsParse("a9");
    IndexOfIsParse("a10");
  }
}
