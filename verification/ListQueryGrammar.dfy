/** Exactly which query strings are accepted, and what each of them means. */
module ListQueryGrammar {
  import opened Rows
  import opened Json
  import opened JsonGrammar
  import opened JsonRoundTrip
  import opened JsonSoundness
  import opened ListQuery

  /** One option as it is written. */
  datatype OptionDoc =
    | FilterDoc(name: string, sym: Symbol, rhs: Doc)
    | SortDoc(name: string, order: Order)
    | PageDoc(digits: string)
    | SizeDoc(digits: string)

  predicate GoodName(name: string, columnOf: ColumnOf) {
    AllAlpha(name) && columnOf(name).Some?
  }

  predicate GoodDigits(t: string) {
    t != "" && AllDigits(t) && DecimalValue(t) < U32_LIMIT
  }

  predicate GoodOption(o: OptionDoc, columnOf: ColumnOf) {
    match o
    case FilterDoc(name, sym, rhs) => GoodName(name, columnOf) && GoodDoc(rhs) && MakeOp(sym, DocValue(rhs)).Some?
    case SortDoc(name, _) => GoodName(name, columnOf)
    case PageDoc(t) => GoodDigits(t)
    case SizeDoc(t) => GoodDigits(t)
  }

  function ItemOf(o: OptionDoc, columnOf: ColumnOf): Item
    requires GoodOption(o, columnOf)
  {
    match o
    case FilterDoc(name, sym, rhs) => FilterItem(Filter(columnOf(name).value, MakeOp(sym, DocValue(rhs)).value))
    case SortDoc(name, order) => SortItem(Sort(columnOf(name).value, order))
    case PageDoc(t) => PageItem(DecimalValue(t))
    case SizeDoc(t) => SizeItem(DecimalValue(t))
  }

  /** The text of an option followed by the text `t`. */
  function OptionTo(o: OptionDoc, t: string): string {
    match o
    case FilterDoc(name, sym, rhs) =>
      "filter" + ("[" + (name + ("]" + ("[" + (SymbolText(sym) + ("]=" + DocTo(rhs, t)))))))
    case SortDoc(name, order) => "sort" + ("[" + (name + ("]" + ("=" + (OrderText(order) + t)))))
    case PageDoc(digits) => "pagination" + ("[page]=" + (digits + t))
    case SizeDoc(digits) => "pagination" + ("[size]=" + (digits + t))
  }

  /** The option ends where its text does. */
  predicate OptionStops(o: OptionDoc, t: string) {
    match o
    case FilterDoc(_, _, rhs) => Stops(rhs, t)
    case SortDoc(_, _) => true
    case PageDoc(_) => t == "" || !IsDigit(t[0])
    case SizeDoc(_) => t == "" || !IsDigit(t[0])
  }

  // ------------------------------------------------------- reading an option

  lemma WordReads(w: string, t: string)
    ensures Word(w, w + t) == Some(t)
  {
  }

  lemma {:induction false} CountAlpha(a: string, t: string)
    requires AllAlpha(a) && (t == "" || !IsAlpha(t[0]))
    ensures AlphaCount(a + t) == |a|
  {
    if a == "" {
      assert a + t == t;
    } else {
      assert (a + t)[1..] == a[1..] + t;
      CountAlpha(a[1..], t);
    }
  }

  lemma ColumnReads(name: string, columnOf: ColumnOf, t: string)
    requires GoodName(name, columnOf)
    ensures ParseColumn("[" + (name + ("]" + t)), columnOf) == Some((t, columnOf(name).value))
  {
    var s1 := name + ("]" + t);
    WordReads("[", s1);
    CountAlpha(name, "]" + t);
    assert s1[..|name|] == name && s1[|name|..] == "]" + t;
    WordReads("]", t);
  }

  lemma {:induction false} FirstFits(symbols: seq<Symbol>, i: nat, s: string)
    requires i < |symbols| && SymbolText(symbols[i]) <= s
    requires forall j :: 0 <= j < i ==> !(SymbolText(symbols[j]) <= s)
    ensures FirstSymbol(symbols, s) == Some((s[|SymbolText(symbols[i])|..], symbols[i]))
  {
    if i > 0 {
      assert !(SymbolText(symbols[0]) <= s);
      assert forall j :: 0 <= j < i - 1 ==> symbols[1..][j] == symbols[j + 1];
      FirstFits(symbols[1..], i - 1, s);
    }
  }

  /** Although operators share prefixes, the first alternative that fits is the right one. */
  lemma SymbolReads(sym: Symbol, t: string)
    ensures FirstSymbol(SYMBOLS, SymbolText(sym) + ("]" + t)) == Some(("]" + t, sym))
  {
    var s := SymbolText(sym) + ("]" + t);
    var i := match sym case SymEq => 0 case SymNeq => 1 case SymGe => 2 case SymGt => 3
                       case SymLe => 4 case SymLt => 5 case SymIn => 6 case SymNotIn => 7;
    assert SYMBOLS[i] == sym;
    assert s[|SymbolText(sym)|] == ']' && s[0] == SymbolText(sym)[0];
    assert |SymbolText(sym)| > 1 ==> s[1] == SymbolText(sym)[1];
    FirstFits(SYMBOLS, i, s);
    assert s[|SymbolText(sym)|..] == "]" + t;
  }

  lemma OperatorReads(sym: Symbol, rhs: Doc, t: string)
    requires GoodDoc(rhs) && Stops(rhs, t)
    ensures ParseFilterOperator("[" + (SymbolText(sym) + ("]=" + DocTo(rhs, t)))) ==
      if MakeOp(sym, DocValue(rhs)).Some? then Some((t, MakeOp(sym, DocValue(rhs)).value)) else None
  {
    ValueReads(rhs, t);
    OperandFollows(sym, DocTo(rhs, t), t, DocValue(rhs));
  }

  /** An operator and its brackets in front of an operand that reads. */
  lemma OperandFollows(sym: Symbol, s3: string, t: string, v: Json)
    requires ParseValue(s3) == Ok(t, v)
    ensures ParseFilterOperator("[" + (SymbolText(sym) + ("]=" + s3))) ==
      if MakeOp(sym, v).Some? then Some((t, MakeOp(sym, v).value)) else None
  {
    hide ParseValue, FirstSymbol, MakeOp, SymbolText, Word;
    WordReads("[", SymbolText(sym) + ("]=" + s3));
    assert "]=" + s3 == "]" + ("=" + s3);
    SymbolReads(sym, "=" + s3);
    WordReads("]=", s3);
  }

  lemma DigitsRead(name: string, digits: string, t: string)
    requires GoodDigits(digits) && (t == "" || !IsDigit(t[0]))
    requires name == "[page]=" || name == "[size]="
    ensures ParsePagination(name + (digits + t)) ==
      Some((t, if name == "[page]=" then PageItem(DecimalValue(digits)) else SizeItem(DecimalValue(digits))))
  {
    var s := name + (digits + t);
    WordReads(name, digits + t);
    assert s[1] == name[1];
    CountDigits(digits, t);
    assert (digits + t)[..|digits|] == digits && (digits + t)[|digits|..] == t;
  }

  lemma FilterReads(o: OptionDoc, columnOf: ColumnOf, t: string)
    requires o.FilterDoc? && GoodOption(o, columnOf) && OptionStops(o, t)
    ensures ParseOption(OptionTo(o, t), columnOf) == Some((t, ItemOf(o, columnOf)))
  {
    var s2 := "[" + (SymbolText(o.sym) + ("]=" + DocTo(o.rhs, t)));
    var s1 := "[" + (o.name + ("]" + s2));
    WordReads("filter", s1);
    ColumnReads(o.name, columnOf, s2);
    OperatorReads(o.sym, o.rhs, t);
  }

  lemma OrderReads(order: Order, t: string)
    ensures "asc" <= OrderText(order) + t <==> order.Asc?
    ensures Word(OrderText(order), OrderText(order) + t) == Some(t)
  {
    WordReads(OrderText(order), t);
    assert (OrderText(order) + t)[0] == OrderText(order)[0];
  }

  lemma SortReads(o: OptionDoc, columnOf: ColumnOf, t: string)
    requires o.SortDoc? && GoodOption(o, columnOf)
    ensures ParseOption(OptionTo(o, t), columnOf) == Some((t, ItemOf(o, columnOf)))
  {
    var s3 := OrderText(o.order) + t;
    var s1 := "[" + (o.name + ("]" + ("=" + s3)));
    SortWord(s1, columnOf);
    ColumnReads(o.name, columnOf, "=" + s3);
    SortStep(s1, columnOf, columnOf(o.name).value, o.order, t);
  }

  lemma SortStep(s: string, columnOf: ColumnOf, column: Column, order: Order, t: string)
    requires ParseColumn(s, columnOf) == Some(("=" + (OrderText(order) + t), column))
    ensures ParseSort(s, columnOf) == Some((t, Sort(column, order)))
  {
    WordReads("=", OrderText(order) + t);
    OrderReads(order, t);
  }

  lemma SortWord(s: string, columnOf: ColumnOf)
    ensures ParseOption("sort" + s, columnOf) ==
      match ParseSort(s, columnOf) case None => None case Some((s2, o)) => Some((s2, SortItem(o)))
  {
    assert ("sort" + s)[0] == 's';
    WordReads("sort", s);
  }

  lemma OptionReads(o: OptionDoc, columnOf: ColumnOf, t: string)
    requires GoodOption(o, columnOf) && OptionStops(o, t)
    ensures ParseOption(OptionTo(o, t), columnOf) == Some((t, ItemOf(o, columnOf)))
  {
    match o {
      case FilterDoc(_, _, _) =>
        FilterReads(o, columnOf, t);
      case SortDoc(_, _) =>
        SortReads(o, columnOf, t);
      case PageDoc(digits) =>
        PaginationWord("[page]=" + (digits + t), columnOf);
        DigitsRead("[page]=", digits, t);
      case SizeDoc(digits) =>
        PaginationWord("[size]=" + (digits + t), columnOf);
        DigitsRead("[size]=", digits, t);
    }
  }

  lemma PaginationWord(s: string, columnOf: ColumnOf)
    ensures ParseOption("pagination" + s, columnOf) == ParsePagination(s)
  {
    assert ("pagination" + s)[0] == 'p';
    WordReads("pagination", s);
  }

  // ------------------------------------------------- an option that was read

  lemma ColumnSound(s: string, columnOf: ColumnOf) returns (name: string)
    requires ParseColumn(s, columnOf).Some?
    ensures GoodName(name, columnOf) && columnOf(name).value == ParseColumn(s, columnOf).value.1
    ensures s == "[" + (name + ("]" + ParseColumn(s, columnOf).value.0))
  {
    var s1 := Word("[", s).value;
    name := s1[..AlphaCount(s1)];
  }

  lemma OptionSound(s: string, columnOf: ColumnOf) returns (o: OptionDoc)
    requires ParseOption(s, columnOf).Some?
    ensures GoodOption(o, columnOf) && OptionStops(o, ParseOption(s, columnOf).value.0)
    ensures s == OptionTo(o, ParseOption(s, columnOf).value.0)
    ensures ItemOf(o, columnOf) == ParseOption(s, columnOf).value.1
  {
    if Word("filter", s).Some? {
      o := FilterSound(Word("filter", s).value, columnOf);
    } else if Word("sort", s).Some? {
      var s1 := Word("sort", s).value;
      var name := ColumnSound(s1, columnOf);
      o := SortDoc(name, ParseSort(s1, columnOf).value.1.order);
    } else {
      o := PaginationSound(Word("pagination", s).value, columnOf);
    }
  }

  lemma FilterSound(s: string, columnOf: ColumnOf) returns (o: OptionDoc)
    requires ParseFilter(s, columnOf).Some?
    ensures o.FilterDoc? && GoodOption(o, columnOf) && OptionStops(o, ParseFilter(s, columnOf).value.0)
    ensures "filter" + s == OptionTo(o, ParseFilter(s, columnOf).value.0)
    ensures ItemOf(o, columnOf) == FilterItem(ParseFilter(s, columnOf).value.1)
  {
    var name := ColumnSound(s, columnOf);
    var s1 := ParseColumn(s, columnOf).value.0;
    var (s2, sym) := FirstSymbol(SYMBOLS, Word("[", s1).value).value;
    var rhs := ValueSound(Word("]=", s2).value);
    o := FilterDoc(name, sym, rhs);
  }

  lemma DigitsSound(s1: string) returns (digits: string, rest: string)
    requires DigitCount(s1) > 0 && DecimalValue(s1[..DigitCount(s1)]) < U32_LIMIT
    ensures digits == s1[..DigitCount(s1)] && rest == s1[DigitCount(s1)..]
    ensures GoodDigits(digits) && (rest == "" || !IsDigit(rest[0])) && s1 == digits + rest
  {
    digits, rest := s1[..DigitCount(s1)], s1[DigitCount(s1)..];
  }

  lemma PaginationSound(s: string, columnOf: ColumnOf) returns (o: OptionDoc)
    requires ParsePagination(s).Some?
    ensures GoodOption(o, columnOf) && OptionStops(o, ParsePagination(s).value.0)
    ensures "pagination" + s == OptionTo(o, ParsePagination(s).value.0)
    ensures ItemOf(o, columnOf) == ParsePagination(s).value.1
  {
    hide GoodDigits, DecimalValue, DigitCount;
    var isPage := Word("[page]=", s).Some?;
    var name := if isPage then "[page]=" else "[size]=";
    var digits, rest := DigitsSound(Word(name, s).value);
    assert s == name + (digits + rest);
    o := if isPage then PageDoc(digits) else SizeDoc(digits);
  }

  // ---------------------------------------------------- whole query strings

  predicate GoodOptions(os: seq<OptionDoc>, columnOf: ColumnOf) {
    forall i :: 0 <= i < |os| ==> GoodOption(os[i], columnOf)
  }

  /** The options joined by `&`, with `end` after the last one. */
  function QueryTo(os: seq<OptionDoc>, end: string): string {
    if os == [] then ""
    else OptionTo(os[0], if |os| == 1 then end else "&" + QueryTo(os[1..], end))
  }

  function ItemsOf(os: seq<OptionDoc>, columnOf: ColumnOf): seq<Item>
    requires GoodOptions(os, columnOf)
  {
    if os == [] then [] else [ItemOf(os[0], columnOf)] + ItemsOf(os[1..], columnOf)
  }

  /** What is read when `first` comes before the items `rest`. */
  function Before(first: seq<Item>, rest: Option<seq<Item>>): Option<seq<Item>> {
    match rest case None => None case Some(items) => Some(first + items)
  }

  lemma OptionNonEmpty(o: OptionDoc, t: string)
    ensures OptionTo(o, t) != ""
  {
  }

  lemma ParseItemsStep(s: string, columnOf: ColumnOf, x: string, item: Item)
    requires s != "" && ParseOption(s, columnOf) == Some(("&" + x, item))
    ensures ParseItems(s, columnOf) == Before([item], ParseItems(x, columnOf))
  {
    WordReads("&", x);
  }

  lemma ParseItemsLast(s: string, columnOf: ColumnOf, item: Item)
    requires s != "" && ParseOption(s, columnOf) == Some(("", item))
    ensures ParseItems(s, columnOf) == Some([item])
  {
    assert ParseItems("", columnOf) == Some([]);
    assert [item] + [] == [item];
  }

  /** One option, then `&`, then anything at all. */
  lemma OptionThen(o: OptionDoc, columnOf: ColumnOf, x: string)
    requires GoodOption(o, columnOf)
    ensures ParseItems(OptionTo(o, "&" + x), columnOf) == Before([ItemOf(o, columnOf)], ParseItems(x, columnOf))
  {
    OptionReads(o, columnOf, "&" + x);
    OptionNonEmpty(o, "&" + x);
    ParseItemsStep(OptionTo(o, "&" + x), columnOf, x, ItemOf(o, columnOf));
  }

  lemma OptionAlone(o: OptionDoc, columnOf: ColumnOf)
    requires GoodOption(o, columnOf)
    ensures ParseItems(OptionTo(o, ""), columnOf) == Some([ItemOf(o, columnOf)])
  {
    OptionReads(o, columnOf, "");
    OptionNonEmpty(o, "");
    ParseItemsLast(OptionTo(o, ""), columnOf, ItemOf(o, columnOf));
  }

  /** Options joined by `&`, then `&`, then anything at all: the options come out in order
      and the rest is read on its own. */
  lemma {:induction false} OptionsThen(os: seq<OptionDoc>, columnOf: ColumnOf, x: string)
    requires os != [] && GoodOptions(os, columnOf)
    ensures ParseItems(QueryTo(os, "&" + x), columnOf) == Before(ItemsOf(os, columnOf), ParseItems(x, columnOf))
  {
    if |os| == 1 {
      OptionThen(os[0], columnOf, x);
      assert ItemsOf(os, columnOf) == [ItemOf(os[0], columnOf)];
    } else {
      OptionThen(os[0], columnOf, QueryTo(os[1..], "&" + x));
      OptionsThen(os[1..], columnOf, x);
      BeforeBefore(ItemOf(os[0], columnOf), ItemsOf(os[1..], columnOf), ParseItems(x, columnOf));
    }
  }

  lemma BeforeBefore(item: Item, items: seq<Item>, rest: Option<seq<Item>>)
    ensures Before([item], Before(items, rest)) == Before([item] + items, rest)
  {
    if rest.Some? {
      assert [item] + (items + rest.value) == ([item] + items) + rest.value;
    }
  }

  /** Options joined by `&` and nothing after the last one. */
  lemma {:induction false} OptionsAlone(os: seq<OptionDoc>, columnOf: ColumnOf)
    requires GoodOptions(os, columnOf)
    ensures ParseItems(QueryTo(os, ""), columnOf) == Some(ItemsOf(os, columnOf))
  {
    if |os| == 1 {
      OptionAlone(os[0], columnOf);
      assert ItemsOf(os, columnOf) == [ItemOf(os[0], columnOf)];
    } else if |os| > 1 {
      OptionThen(os[0], columnOf, QueryTo(os[1..], ""));
      OptionsAlone(os[1..], columnOf);
    }
  }

  /** With or without an `&` at the end. */
  lemma OptionsRead(os: seq<OptionDoc>, columnOf: ColumnOf, end: string)
    requires GoodOptions(os, columnOf) && (end == "" || end == "&")
    ensures ParseItems(QueryTo(os, end), columnOf) == Some(ItemsOf(os, columnOf))
  {
    if os == [] || end == "" {
      OptionsAlone(os, columnOf);
    } else {
      OptionsThen(os, columnOf, "");
      assert "&" + "" == "&";
      assert ItemsOf(os, columnOf) + [] == ItemsOf(os, columnOf);
    }
  }

  /** What a list of options comes to: filters and sorts in order, the last page and
      size, 0 and 100 where none is given. */
  lemma QueryRoundTrip(os: seq<OptionDoc>, columnOf: ColumnOf)
    requires GoodOptions(os, columnOf)
    ensures var items := ItemsOf(os, columnOf);
      Meaning(QueryTo(os, ""), columnOf) ==
        Some(Params(FiltersOf(items), SortsOf(items), LastPage(items, 0), LastSize(items, 100)))
  {
    OptionsAlone(os, columnOf);
    DefaultsMean(ItemsOf(os, columnOf));
  }

  lemma DefaultsMean(items: seq<Item>)
    ensures AddAll(DEFAULT, items) == Params(FiltersOf(items), SortsOf(items), LastPage(items, 0), LastSize(items, 100))
  {
    AddAllMeans(DEFAULT, items);
  }

  lemma FirstItemSound(s: string, columnOf: ColumnOf) returns (o: OptionDoc, rest: string)
    requires s != "" && ParseItems(s, columnOf).Some?
    ensures GoodOption(o, columnOf) && s == OptionTo(o, rest)
    ensures rest != "" ==> rest == "&" + rest[1..] && |rest| <= |s| && ParseItems(rest[1..], columnOf).Some?
  {
    o := OptionSound(s, columnOf);
    rest := ParseOption(s, columnOf).value.0;
  }

  lemma QueryCons(o: OptionDoc, more: seq<OptionDoc>, columnOf: ColumnOf, end: string)
    requires GoodOption(o, columnOf) && GoodOptions(more, columnOf)
    ensures GoodOptions([o] + more, columnOf)
    ensures QueryTo([o] + more, end) == OptionTo(o, if more == [] then end else "&" + QueryTo(more, end))
  {
    assert ([o] + more)[1..] == more;
  }

  lemma {:induction false} ItemsSound(s: string, columnOf: ColumnOf) returns (os: seq<OptionDoc>, end: string)
    requires ParseItems(s, columnOf).Some?
    ensures GoodOptions(os, columnOf) && (end == "" || end == "&")
    ensures s == QueryTo(os, end) && (os == [] ==> end == "")
    decreases |s|
  {
    if s == "" {
      return [], "";
    }
    var o, rest := FirstItemSound(s, columnOf);
    var more, e := [], "";
    if rest != "" {
      more, e := ItemsSound(rest[1..], columnOf);
    }
    end := if more != [] then e else rest;
    QueryCons(o, more, columnOf, end);
    os := [o] + more;
  }

  /** `s` is these options joined by `&`, with or without an `&` at the end. */
  predicate Spells(s: string, os: seq<OptionDoc>, end: string, columnOf: ColumnOf) {
    GoodOptions(os, columnOf) && (end == "" || end == "&") && s == QueryTo(os, end)
  }

  /** A query string is accepted exactly when it is a list of options joined by `&`,
      possibly with one `&` at the end, and it means those options. */
  lemma AcceptedIff(s: string, columnOf: ColumnOf, items: seq<Item>)
    ensures ParseItems(s, columnOf) == Some(items) <==>
      exists os, end :: Spells(s, os, end, columnOf) && items == ItemsOf(os, columnOf)
  {
    if ParseItems(s, columnOf) == Some(items) {
      var os, end := ItemsSound(s, columnOf);
      OptionsRead(os, columnOf, end);
      assert Spells(s, os, end, columnOf);
    }
    if os, end :| Spells(s, os, end, columnOf) && items == ItemsOf(os, columnOf) {
      OptionsRead(os, columnOf, end);
    }
  }
}
