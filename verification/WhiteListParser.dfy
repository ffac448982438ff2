/**
 The white list configuration: a line is a list of columns separated by commas, a column a list of key codes separated
 by bars; the last column is a single code.
 */
module WhiteListParser {
  import opened SeqFacts
  import opened Decimal
  import opened StringCodec
  import opened WhiteListIndex

  const MAX_LINE_NUM := 100
  const MAX_CHAR_PER_LINE_NUM := 100
  const MAX_SPLIT_COMMA_NUM := 4
  const MAX_SPLIT_LINE_NUM := 12
  const MAX_KEY_CODE_NUM := 4

  predicate CheckIsNumber(s: string) {
    1 <= |s| <= MAX_KEY_CODE_NUM && AllDigits(s)
  }

  /** The code that a piece stands for: none if it is not a number of at most four digits, or zero. */
  function CodeOf(piece: string): seq<int> {
    if CheckIsNumber(piece) && Value(piece) != 0 then [Value(piece)] else []
  }

  function CodesOf(pieces: seq<string>): Column {
    if pieces == [] then [] else CodeOf(pieces[0]) + CodesOf(pieces[1..])
  }

  /** A column without codes disappears. */
  function Kept(column: Column): Item {
    if column == [] then [] else [column]
  }

  function ColumnsOf(columns: seq<string>): Item {
    if columns == [] then [] else Kept(CodesOf(SplitOn(columns[0], '|'))) + ColumnsOf(columns[1..])
  }

  /** All columns of a line but the last, and the last one as it stands. */
  function Heads(line: string): Item {
    var columns := SplitOn(line, ',');
    ColumnsOf(columns[..|columns| - 1])
  }

  function LastPiece(line: string): string {
    var columns := SplitOn(line, ',');
    columns[|columns| - 1]
  }

  function ParseLine(line: string): Item {
    Heads(line) + Kept(CodeOf(LastPiece(line)))
  }

  lemma CodesOfOne(piece: string)
    ensures CodesOf([piece]) == CodeOf(piece)
  {
    assert CodesOf([piece][1..]) == [];
  }

  lemma CodesCons(piece: string, rest: seq<string>)
    ensures CodesOf([piece] + rest) == CodeOf(piece) + CodesOf(rest)
  {
    ConsParts(piece, rest);
  }

  lemma CodesOfLast(column: string)
    requires Find(column, '|') == |column|
    ensures CodesOf(SplitOn(column, '|')) == CodeOf(column)
  {
    CodesOfOne(column);
  }

  lemma CodesOfMore(column: string, i: nat)
    requires Find(column, '|') == i < |column|
    ensures CodesOf(SplitOn(column, '|')) == CodeOf(column[..i]) + CodesOf(SplitOn(column[i + 1..], '|'))
  {
    SplitMore(column, '|', i);
    CodesCons(column[..i], SplitOn(column[i + 1..], '|'));
  }

  /** The number test and push that the reading of a column and of a line's end share. */
  method PushCode(piece: string, vecKeyCode: Column) returns (out: Column)
    ensures out == vecKeyCode + CodeOf(piece)
  {
    out := vecKeyCode;
    if CheckIsNumber(piece) {
      var keyCode := Value(piece);
      if keyCode != 0 {
        out := out + [keyCode];
      }
    }
  }

  /** ReadLineDataStepOne: one column, consumed piece by piece. */
  method ReadLineDataStepOne(column0: string, vecCombinationKey: Item) returns (out: Item)
    ensures out == vecCombinationKey + Kept(CodesOf(SplitOn(column0, '|')))
  {
    var column, vecKeyCode: Column := column0, [];
    ghost var all := CodesOf(SplitOn(column0, '|'));
    ConcatEmpty(all);
    var pos2 := Find(column, '|');
    while pos2 != |column|
      invariant pos2 == Find(column, '|')
      invariant vecKeyCode + CodesOf(SplitOn(column, '|')) == all
      decreases |column|
    {
      var single := column[..pos2];
      CodesOfMore(column, pos2);
      column := column[pos2 + 1..];
      pos2 := Find(column, '|');
      ConcatAssoc(vecKeyCode, CodeOf(single), CodesOf(SplitOn(column, '|')));
      vecKeyCode := PushCode(single, vecKeyCode);
    }
    CodesOfLast(column);
    vecKeyCode := PushCode(column, vecKeyCode);
    out := vecCombinationKey;
    ConcatEmpty(out);
    if vecKeyCode != [] {
      out := out + [vecKeyCode];
    }
  }

  lemma HeadsOfLast(line: string)
    requires Find(line, ',') == |line|
    ensures Heads(line) == [] && LastPiece(line) == line
  {
  }

  lemma ColumnsCons(column: string, rest: seq<string>)
    requires rest != []
    ensures var columns := [column] + rest;
            && ColumnsOf(columns[..|columns| - 1])
                == Kept(CodesOf(SplitOn(column, '|'))) + ColumnsOf(rest[..|rest| - 1])
            && columns[|columns| - 1] == rest[|rest| - 1]
  {
    LastOfConcat([column], rest);
    ConsParts(column, rest[..|rest| - 1]);
  }

  lemma HeadsOfMore(line: string, i: nat)
    requires Find(line, ',') == i < |line|
    ensures Heads(line) == Kept(CodesOf(SplitOn(line[..i], '|'))) + Heads(line[i + 1..])
    ensures LastPiece(line) == LastPiece(line[i + 1..])
  {
    SplitMore(line, ',', i);
    ColumnsCons(line[..i], SplitOn(line[i + 1..], ','));
  }

  /** SplitCombinationKey: all columns but the last; what is left of the line is the last one. */
  method SplitCombinationKey(line0: string) returns (line: string, vecCombinationKey: Item)
    ensures line == LastPiece(line0) && vecCombinationKey == Heads(line0)
  {
    line, vecCombinationKey := line0, [];
    ghost var all := Heads(line0);
    ConcatEmpty(all);
    var pos1 := Find(line, ',');
    while pos1 != |line|
      invariant pos1 == Find(line, ',')
      invariant vecCombinationKey + Heads(line) == all && LastPiece(line) == LastPiece(line0)
      decreases |line|
    {
      var column := line[..pos1];
      HeadsOfMore(line, pos1);
      line := line[pos1 + 1..];
      pos1 := Find(line, ',');
      ConcatAssoc(vecCombinationKey, Kept(CodesOf(SplitOn(column, '|'))), Heads(line));
      vecCombinationKey := ReadLineDataStepOne(column, vecCombinationKey);
    }
    HeadsOfLast(line);
    ConcatEmpty(vecCombinationKey);
  }

  /** How often `c` is among the first `n` characters. */
  function Count(s: string, c: char, n: nat): nat
    requires n <= |s|
  {
    if n == 0 then 0 else Count(s, c, n - 1) + (if s[n - 1] == c then 1 else 0)
  }

  predicate IsValidLine(line: string) {
    && |line| <= MAX_CHAR_PER_LINE_NUM
    && Count(line, ',', |line|) <= MAX_SPLIT_COMMA_NUM && Count(line, '|', |line|) <= MAX_SPLIT_LINE_NUM
  }

  /** A line without columns is no item. */
  function Listed(item: Item): WhiteList {
    if item == [] then [] else [item]
  }

  /** How many lines are read: up to the first invalid one, and at most a hundred. */
  function ReadCount(lines: seq<string>, n: nat): (r: nat)
    requires n <= |lines| && n <= MAX_LINE_NUM
    ensures n <= r <= |lines| && r <= MAX_LINE_NUM && forall i :: n <= i < r ==> IsValidLine(lines[i])
    ensures r == |lines| || r == MAX_LINE_NUM || !IsValidLine(lines[r])
    decreases |lines| - n
  {
    if n == |lines| || n == MAX_LINE_NUM || !IsValidLine(lines[n]) then n else ReadCount(lines, n + 1)
  }

  function ItemsUpTo(lines: seq<string>, n: nat): WhiteList
    requires n <= |lines|
  {
    if n == 0 then [] else ItemsUpTo(lines, n - 1) + Listed(ParseLine(lines[n - 1]))
  }

  /** The white list of a file. */
  function ParseLines(lines: seq<string>): WhiteList {
    ItemsUpTo(lines, ReadCount(lines, 0))
  }

  /** The body of Init's loop, for a valid line. */
  method ReadLine(line0: string, vecWhiteList: WhiteList) returns (out: WhiteList)
    ensures out == vecWhiteList + Listed(ParseLine(line0))
  {
    var line, vecCombinationKey := SplitCombinationKey(line0);
    var vecKeyCode := PushCode(line, []);
    ConcatEmpty(CodeOf(line));
    ConcatEmpty(vecCombinationKey);
    if vecKeyCode != [] {
      vecCombinationKey := vecCombinationKey + [vecKeyCode];
    }
    out := vecWhiteList;
    ConcatEmpty(out);
    if vecCombinationKey != [] {
      out := out + [vecCombinationKey];
    }
  }

  /** The reading loop of Init. */
  method ReadLines(lines: seq<string>) returns (vecWhiteList: WhiteList)
    ensures vecWhiteList == ParseLines(lines)
  {
    vecWhiteList := [];
    var lineNum := 0;
    for i := 0 to |lines|
      invariant lineNum == i <= MAX_LINE_NUM
      invariant ReadCount(lines, i) == ReadCount(lines, 0) && vecWhiteList == ItemsUpTo(lines, i)
    {
      lineNum := lineNum + 1;
      if lineNum > MAX_LINE_NUM || !IsValidLine(lines[i]) {
        return;
      }
      vecWhiteList := ReadLine(lines[i], vecWhiteList);
    }
  }

  // ----- what a line can mean

  predicate ProperColumn(c: Column) {
    c != [] && forall i :: 0 <= i < |c| ==> 1 <= c[i] <= 9999
  }

  predicate ProperItem(item: Item) {
    forall i :: 0 <= i < |item| ==> ProperColumn(item[i])
  }

  lemma {:induction false} CodesAreProper(pieces: seq<string>)
    ensures CodesOf(pieces) != [] ==> ProperColumn(CodesOf(pieces))
  {
    if pieces != [] {
      CodesAreProper(pieces[1..]);
      CodeIsProper(pieces[0]);
    }
  }

  lemma CodeIsProper(piece: string)
    ensures CodeOf(piece) != [] ==> ProperColumn(CodeOf(piece))
  {
    if CheckIsNumber(piece) {
      ValueBound(piece);
    }
  }

  lemma {:induction false} ColumnsAreProper(columns: seq<string>)
    ensures ProperItem(ColumnsOf(columns))
  {
    if columns != [] {
      ColumnsAreProper(columns[1..]);
      CodesAreProper(SplitOn(columns[0], '|'));
    }
  }

  /** Any line yields only non-empty columns of codes from 1 to 9999. */
  lemma ParsedIsProper(line: string)
    ensures ProperItem(ParseLine(line))
  {
    var columns := SplitOn(line, ',');
    ColumnsAreProper(columns[..|columns| - 1]);
    CodeIsProper(LastPiece(line));
  }

  // ----- printing and parsing back

  function Texts(c: Column): seq<string> {
    if c == [] then [] else [Text(c[0])] + Texts(c[1..])
  }

  function PrintColumns(item: Item): seq<string> {
    if item == [] then [] else [Join(Texts(item[0]), '|')] + PrintColumns(item[1..])
  }

  function PrintItem(item: Item): string {
    Join(PrintColumns(item), ',')
  }

  predicate Printable(item: Item) {
    item != [] && ProperItem(item) && |item[|item| - 1]| == 1
  }

  lemma CodeOfText(n: int)
    requires 1 <= n <= 9999
    ensures CodeOf(Text(n)) == [n] && ',' !in Text(n) && '|' !in Text(n)
  {
    FourDigits(n);
    ValueOfDigits(n);
  }

  lemma {:induction false} TextsParse(c: Column)
    requires forall i :: 0 <= i < |c| ==> 1 <= c[i] <= 9999
    ensures CodesOf(Texts(c)) == c && Free(Texts(c), '|') && Free(Texts(c), ',') && |Texts(c)| == |c|
  {
    if c != [] {
      CodeOfText(c[0]);
      TextsParse(c[1..]);
      CodesCons(Text(c[0]), Texts(c[1..]));
      assert ([Text(c[0])] + Texts(c[1..]))[1..] == Texts(c[1..]);
      assert c == [c[0]] + c[1..];
    }
  }

  lemma {:induction false} JoinFree(l: seq<string>, c: char, other: char)
    requires Free(l, other) && c != other
    ensures other !in Join(l, c)
  {
    if |l| > 1 {
      JoinFree(l[1..], c, other);
    }
  }

  lemma ColumnParses(c: Column)
    requires ProperColumn(c)
    ensures CodesOf(SplitOn(Join(Texts(c), '|'), '|')) == c && ',' !in Join(Texts(c), '|')
  {
    TextsParse(c);
    SplitOfJoin(Texts(c), '|');
    JoinFree(Texts(c), '|', ',');
  }

  lemma {:induction false} ColumnsParse(item: Item)
    requires ProperItem(item)
    ensures ColumnsOf(PrintColumns(item)) == item && Free(PrintColumns(item), ',') && |PrintColumns(item)| == |item|
  {
    if item != [] {
      ColumnParses(item[0]);
      ColumnsParse(item[1..]);
      var first, rest := Join(Texts(item[0]), '|'), PrintColumns(item[1..]);
      assert ([first] + rest)[1..] == rest;
      assert item == [item[0]] + item[1..];
    }
  }

  lemma {:induction false} PrintColumnsSplit(item: Item)
    requires item != []
    ensures PrintColumns(item) == PrintColumns(item[..|item| - 1]) + [Join(Texts(item[|item| - 1]), '|')]
  {
    if |item| > 1 {
      PrintColumnsSplit(item[1..]);
      assert item[1..][..|item| - 2] == item[..|item| - 1][1..];
    } else {
      assert PrintColumns(item[1..]) == [];
    }
  }

  lemma LastColumnPrints(last: Column)
    requires |last| == 1 && 1 <= last[0] <= 9999
    ensures Join(Texts(last), '|') == Text(last[0]) && CodeOf(Text(last[0])) == last
  {
    assert Texts(last[1..]) == [];
    CodeOfText(last[0]);
  }

  lemma ParseOfJoin(front: seq<string>, last: string)
    requires Free(front + [last], ',')
    ensures ParseLine(Join(front + [last], ',')) == ColumnsOf(front) + Kept(CodeOf(last))
  {
    SplitOfJoin(front + [last], ',');
    Snoc(front, last);
  }

  lemma PrintedParses(item: Item)
    requires Printable(item)
    ensures ParseLine(PrintItem(item)) == item
  {
    var front, last := item[..|item| - 1], item[|item| - 1];
    ColumnsParse(item);
    PrintColumnsSplit(item);
    ColumnsParse(front);
    LastColumnPrints(last);
    ParseOfJoin(PrintColumns(front), Text(last[0]));
    CutJoin(item, |item| - 1);
  }

  lemma ManyCodesAreNoCode(last: Column)
    requires |last| >= 2
    ensures CodeOf(Join(Texts(last), '|')) == []
  {
    var first := Text(last[0]);
    assert Texts(last[1..]) != [];
    assert Join(Texts(last), '|')[|first|] == '|';
  }

  lemma LongLastColumnIsLost(item: Item)
    requires item != [] && ProperItem(item) && |item[|item| - 1]| >= 2
    ensures ParseLine(PrintItem(item)) == item[..|item| - 1]
  {
    var front, last := item[..|item| - 1], item[|item| - 1];
    ColumnsParse(item);
    PrintColumnsSplit(item);
    ColumnsParse(front);
    ManyCodesAreNoCode(last);
    ParseOfJoin(PrintColumns(front), Join(Texts(last), '|'));
    ConcatEmpty(front);
  }

  /** Printing an item and parsing the line gives the item back exactly when it is empty or printable. */
  lemma PrintParse(item: Item)
    ensures ParseLine(PrintItem(item)) == item <==> item == [] || Printable(item)
  {
    ParsedIsProper(PrintItem(item));
    if item == [] {
      SplitOne("", ',');
    } else if Printable(item) {
      PrintedParses(item);
    } else if ProperItem(item) {
      LongLastColumnIsLost(item);
    }
  }

  function PrintAll(list: WhiteList): seq<string> {
    seq(|list|, i requires 0 <= i < |list| => PrintItem(list[i]))
  }

  lemma PrintedIsListed(item: Item)
    requires Printable(item)
    ensures Listed(ParseLine(PrintItem(item))) == [item]
  {
    PrintedParses(item);
  }

  lemma {:induction false} PrintParseUpTo(list: WhiteList, n: nat)
    requires n <= |list| && forall i :: 0 <= i < n ==> Printable(list[i])
    ensures ItemsUpTo(PrintAll(list), n) == list[..n]
  {
    if n > 0 {
      PrintParseUpTo(list, n - 1);
      PrintedIsListed(list[n - 1]);
      assert PrintAll(list)[n - 1] == PrintItem(list[n - 1]);
      PrefixStep(list, n - 1);
    }
  }

  /** A file of printed items reads back as the list, as far as it is read. */
  lemma {:induction false} PrintParseAll(list: WhiteList)
    requires forall i :: 0 <= i < |list| ==> Printable(list[i])
    ensures ParseLines(PrintAll(list)) == list[..ReadCount(PrintAll(list), 0)]
  {
    PrintParseUpTo(list, ReadCount(PrintAll(list), 0));
  }

  /** It is read whole exactly if it stays within the limits on a line and on their number. */
  lemma {:induction false} ReadWholeIff(list: WhiteList)
    ensures ReadCount(PrintAll(list), 0) == |list| <==>
              |list| <= MAX_LINE_NUM && forall i :: 0 <= i < |list| ==> IsValidLine(PrintItem(list[i]))
  {
    var lines := PrintAll(list);
    assert forall i :: 0 <= i < |lines| ==> lines[i] == PrintItem(list[i]);
  }

  // ----- which printed lines are within the limits

  lemma {:induction false} CountConcat(a: string, b: string, c: char, n: nat)
    requires n <= |b|
    ensures Count(a + b, c, |a| + n) == Count(a, c, |a|) + Count(b, c, n)
    decreases n
  {
    if n == 0 {
      CountPrefix(a, b, c, |a|);
    } else {
      CountConcat(a, b, c, n - 1);
    }
  }

  lemma {:induction false} CountPrefix(a: string, b: string, c: char, n: nat)
    requires n <= |a|
    ensures Count(a + b, c, n) == Count(a, c, n)
  {
    if n > 0 {
      CountPrefix(a, b, c, n - 1);
    }
  }

  lemma {:induction false} CountNone(s: string, c: char, n: nat)
    requires n <= |s| && c !in s
    ensures Count(s, c, n) == 0
  {
    if n > 0 {
      CountNone(s, c, n - 1);
    }
  }

  /** A character in all the strings together. */
  function CountAll(l: seq<string>, c: char): nat {
    if l == [] then 0 else Count(l[0], c, |l[0]|) + CountAll(l[1..], c)
  }

  function LengthAll(l: seq<string>): nat {
    if l == [] then 0 else |l[0]| + LengthAll(l[1..])
  }

  lemma JoinedTwo(first: string, rest: string, sep: char, c: char)
    ensures var s := first + [sep] + rest;
            Count(s, c, |s|) == Count(first, c, |first|) + (if sep == c then 1 else 0) + Count(rest, c, |rest|)
  {
    CountConcat(first + [sep], rest, c, |rest|);
    CountConcat(first, [sep], c, 1);
    assert Count([sep], c, 0) == 0;
  }

  /** Joining adds one separator between any two strings. */
  lemma {:induction false} CountJoin(l: seq<string>, sep: char, c: char)
    requires l != []
    ensures var s := Join(l, sep);
            Count(s, c, |s|) == CountAll(l, c) + (if sep == c then |l| - 1 else 0) && |s| == LengthAll(l) + |l| - 1
  {
    if |l| == 1 {
      assert CountAll(l[1..], c) == 0 && LengthAll(l[1..]) == 0;
    } else {
      CountJoin(l[1..], sep, c);
      JoinedTwo(l[0], Join(l[1..], sep), sep, c);
    }
  }

  function TotalCodes(item: Item): nat {
    if item == [] then 0 else |item[0]| + TotalCodes(item[1..])
  }

  lemma {:induction false} TextsCount(column: Column, c: char)
    requires forall i :: 0 <= i < |column| ==> 1 <= column[i] <= 9999
    requires c == ',' || c == '|'
    ensures CountAll(Texts(column), c) == 0 && |Texts(column)| == |column|
    ensures LengthAll(Texts(column)) <= 4 * |column|
  {
    if column != [] {
      var first, rest := Text(column[0]), Texts(column[1..]);
      TextsCount(column[1..], c);
      CodeOfText(column[0]);
      FourDigits(column[0]);
      CountNone(first, c, |first|);
      ConsParts(first, rest);
    }
  }

  lemma ColumnCount(column: Column)
    requires ProperColumn(column)
    ensures var s := Join(Texts(column), '|');
            && Count(s, '|', |s|) == |column| - 1 && Count(s, ',', |s|) == 0 && |s| <= 5 * |column| - 1
  {
    TextsCount(column, '|');
    TextsCount(column, ',');
    CountJoin(Texts(column), '|', '|');
    CountJoin(Texts(column), '|', ',');
  }

  lemma {:induction false} ColumnsCount(item: Item)
    requires ProperItem(item)
    ensures var l := PrintColumns(item);
            && |l| == |item| && CountAll(l, ',') == 0 && CountAll(l, '|') == TotalCodes(item) - |item|
            && LengthAll(l) + |item| <= 5 * TotalCodes(item)
  {
    if item != [] {
      var first, rest := Join(Texts(item[0]), '|'), PrintColumns(item[1..]);
      ColumnCount(item[0]);
      ColumnsCount(item[1..]);
      ConsParts(first, rest);
    }
  }

  /**
   A printed item with proper columns is within the limits of a line exactly if it has at most five columns, and at most
   twelve codes more than columns; the limit on characters is then kept by itself.
   */
  lemma {:induction false} PrintedLineValidIff(item: Item)
    requires ProperItem(item)
    ensures IsValidLine(PrintItem(item)) <==> |item| <= 5 && TotalCodes(item) <= |item| + 12
  {
    ColumnsCount(item);
    if item != [] {
      CountJoin(PrintColumns(item), ',', ',');
      CountJoin(PrintColumns(item), ',', '|');
    }
  }

  /** So a file of proper items is read whole exactly if it has at most a hundred, all within these limits. */
  lemma {:induction false} ProperFileReadWholeIff(list: WhiteList)
    requires forall i :: 0 <= i < |list| ==> ProperItem(list[i])
    ensures ReadCount(PrintAll(list), 0) == |list| <==>
              && |list| <= 100
              && forall i :: 0 <= i < |list| ==> |list[i]| <= 5 && TotalCodes(list[i]) <= |list[i]| + 12
  {
    ReadWholeIff(list);
    forall i | 0 <= i < |list|
      ensures IsValidLine(PrintItem(list[i])) <==> |list[i]| <= 5 && TotalCodes(list[i]) <= |list[i]| + 12
    {
      PrintedLineValidIff(list[i]);
    }
  }

  // ----- codes as they may be written

  function Zeros(k: nat): string {
    seq(k, _ => '0')
  }

  lemma {:induction false} ValueOfZeros(k: nat, s: string)
    requires AllDigits(s)
    ensures AllDigits(Zeros(k) + s) && Value(Zeros(k) + s) == Value(s)
    decreases k + |s|
  {
    var t := Zeros(k) + s;
    assert forall i :: 0 <= i < |t| ==> t[i] == if i < k then '0' else s[i - k];
    if s != "" {
      LastOfConcat(Zeros(k), s);
      ValueOfZeros(k, s[..|s| - 1]);
    } else if k > 0 {
      assert t[..|t| - 1] == Zeros(k - 1) + "";
      ValueOfZeros(k - 1, "");
    }
  }

  /** A code may be written with leading zeros, as long as it has four digits at most; anything longer is no code. */
  lemma {:induction false} PaddedCode(n: int, k: nat)
    requires 1 <= n <= 9999
    ensures CodeOf(Zeros(k) + Text(n)) == if k + |Text(n)| <= 4 then [n] else []
  {
    ValueOfDigits(n);
    ValueOfZeros(k, Text(n));
  }

  /** A piece with any other character, of no digits or of zeros only is no code. */
  lemma {:induction false} NoCode(piece: string)
    requires (exists i :: 0 <= i < |piece| && !IsDigit(piece[i])) || piece == Zeros(|piece|)
    ensures CodeOf(piece) == []
  {
    if piece == Zeros(|piece|) {
      ValueOfZeros(|piece|, "");
      ConcatEmpty(piece);
      assert Value("") == 0;
    }
  }
}
