/** The filter, sort and pagination language of a list request's query string. */
module ListQuery {
  import opened Rows
  import opened Json

  /** A column of the listed table. */
  type Column(==, !new)

  type ColumnOf = string -> Option<Column>

  datatype FilterOp =
    | Eq(v: Json) | Neq(v: Json)
    | Gt(v: Json) | Ge(v: Json) | Lt(v: Json) | Le(v: Json)
    | In(items: seq<Json>) | NotIn(items: seq<Json>)

  datatype Order = Asc | Desc

  datatype Filter = Filter(column: Column, op: FilterOp)

  datatype Sort = Sort(column: Column, order: Order)

  datatype Params = Params(filters: seq<Filter>, sorts: seq<Sort>, page: nat, size: nat)

  const DEFAULT: Params := Params([], [], 0, 100)

  /** One option of the query string. */
  datatype Item =
    | FilterItem(filter: Filter)
    | SortItem(sort: Sort)
    | PageItem(n: nat)
    | SizeItem(n: nat)

  function Add(p: Params, item: Item): Params {
    match item
    case FilterItem(f) => p.(filters := p.filters + [f])
    case SortItem(s) => p.(sorts := p.sorts + [s])
    case PageItem(n) => p.(page := n)
    case SizeItem(n) => p.(size := n)
  }

  // ------------------------------------------------------------- operators

  datatype Symbol = SymEq | SymNeq | SymGe | SymGt | SymLe | SymLt | SymIn | SymNotIn

  function SymbolText(sym: Symbol): (t: string)
    ensures t != ""
  {
    match sym
    case SymEq => "="
    case SymNeq => "!="
    case SymGe => ">="
    case SymGt => ">"
    case SymLe => "<="
    case SymLt => "<"
    case SymIn => "in"
    case SymNotIn => "!in"
  }

  /** The alternatives in the order they are tried. */
  const SYMBOLS: seq<Symbol> := [SymEq, SymNeq, SymGe, SymGt, SymLe, SymLt, SymIn, SymNotIn]

  function Word(w: string, s: string): (r: Option<string>)
    ensures r.Some? <==> w <= s
    ensures r.Some? ==> s == w + r.value
  {
    if w <= s then Some(s[|w|..]) else None
  }

  function FirstSymbol(symbols: seq<Symbol>, s: string): (r: Option<(string, Symbol)>)
    ensures r.Some? ==> s == SymbolText(r.value.1) + r.value.0
  {
    if symbols == [] then None
    else
      match Word(SymbolText(symbols[0]), s)
      case Some(rest) => Some((rest, symbols[0]))
      case None => FirstSymbol(symbols[1..], s)
  }

  /** Membership operators need an array on their right. */
  function MakeOp(sym: Symbol, v: Json): Option<FilterOp> {
    match sym
    case SymEq => Some(Eq(v))
    case SymNeq => Some(Neq(v))
    case SymGe => Some(Ge(v))
    case SymGt => Some(Gt(v))
    case SymLe => Some(Le(v))
    case SymLt => Some(Lt(v))
    case SymIn => if v.Array? then Some(In(v.items)) else None
    case SymNotIn => if v.Array? then Some(NotIn(v.items)) else None
  }

  function ParseFilterOperator(s: string): (r: Option<(string, FilterOp)>)
    ensures r.Some? ==> |r.value.0| < |s|
  {
    match Word("[", s)
    case None => None
    case Some(s1) =>
    match FirstSymbol(SYMBOLS, s1)
    case None => None
    case Some((s2, sym)) =>
    match Word("]=", s2)
    case None => None
    case Some(s3) =>
    match ParseValue(s3)
    case Error => None
    case Failure => None
    case Ok(s4, v) =>
    match MakeOp(sym, v)
    case None => None
    case Some(op) => Some((s4, op))
  }

  // --------------------------------------------------------------- columns

  predicate IsAlpha(c: char) {
    'a' <= c <= 'z' || 'A' <= c <= 'Z'
  }

  predicate AllAlpha(s: string) {
    forall i :: 0 <= i < |s| ==> IsAlpha(s[i])
  }

  function AlphaCount(s: string): (n: nat)
    ensures n <= |s| && AllAlpha(s[..n])
    ensures n < |s| ==> !IsAlpha(s[n])
  {
    if s == "" || !IsAlpha(s[0]) then 0
    else
      var n := AlphaCount(s[1..]);
      assert s[..n + 1] == [s[0]] + s[1..][..n];
      n + 1
  }

  function ParseColumn(s: string, columnOf: ColumnOf): (r: Option<(string, Column)>)
    ensures r.Some? ==> |r.value.0| < |s|
  {
    match Word("[", s)
    case None => None
    case Some(s1) =>
    var n := AlphaCount(s1);
    match columnOf(s1[..n])
    case None => None
    case Some(column) =>
    match Word("]", s1[n..])
    case None => None
    case Some(s2) => Some((s2, column))
  }

  // --------------------------------------------------------------- options

  function ParseFilter(s: string, columnOf: ColumnOf): (r: Option<(string, Filter)>)
    ensures r.Some? ==> |r.value.0| < |s|
  {
    match ParseColumn(s, columnOf)
    case None => None
    case Some((s1, column)) =>
    match ParseFilterOperator(s1)
    case None => None
    case Some((s2, op)) => Some((s2, Filter(column, op)))
  }

  function OrderText(order: Order): string {
    if order.Asc? then "asc" else "desc"
  }

  function ParseSort(s: string, columnOf: ColumnOf): (r: Option<(string, Sort)>)
    ensures r.Some? ==> |r.value.0| < |s|
  {
    match ParseColumn(s, columnOf)
    case None => None
    case Some((s1, column)) =>
    match Word("=", s1)
    case None => None
    case Some(s2) =>
    match Word("asc", s2)
    case Some(s3) => Some((s3, Sort(column, Asc)))
    case None =>
    match Word("desc", s2)
    case Some(s3) => Some((s3, Sort(column, Desc)))
    case None => None
  }

  function DecimalValue(t: string): nat
    requires AllDigits(t)
  {
    if t == "" then 0 else 10 * DecimalValue(t[..|t| - 1]) + (t[|t| - 1] as int - '0' as int)
  }

  /** `page` and `size` are 32-bit unsigned numbers. */
  const U32_LIMIT: nat := 0x1_0000_0000

  /** The option's name, `page` or `size`, and its number. */
  function ParsePagination(s: string): (r: Option<(string, Item)>)
    ensures r.Some? ==> |r.value.0| < |s|
    ensures r.Some? ==> r.value.1.PageItem? || r.value.1.SizeItem?
  {
    var isPage := Word("[page]=", s).Some?;
    match Word(if isPage then "[page]=" else "[size]=", s)
    case None => None
    case Some(s1) =>
    var n := DigitCount(s1);
    if n == 0 || DecimalValue(s1[..n]) >= U32_LIMIT then None
    else Some((s1[n..], if isPage then PageItem(DecimalValue(s1[..n])) else SizeItem(DecimalValue(s1[..n]))))
  }

  function ParseOption(s: string, columnOf: ColumnOf): (r: Option<(string, Item)>)
    ensures r.Some? ==> |r.value.0| < |s|
  {
    match Word("filter", s)
    case Some(s1) => (
      match ParseFilter(s1, columnOf)
      case None => None
      case Some((s2, f)) => Some((s2, FilterItem(f))))
    case None =>
    match Word("sort", s)
    case Some(s1) => (
      match ParseSort(s1, columnOf)
      case None => None
      case Some((s2, o)) => Some((s2, SortItem(o))))
    case None =>
    match Word("pagination", s)
    case Some(s1) => ParsePagination(s1)
    case None => None
  }

  // ---------------------------------------------------------- query strings

  /** The options of a query string, in order. */
  function ParseItems(s: string, columnOf: ColumnOf): Option<seq<Item>>
    decreases |s|
  {
    if s == "" then Some([])
    else
      match ParseOption(s, columnOf)
      case None => None
      case Some((rest, item)) =>
      var next := if rest == "" then Some("") else Word("&", rest);
      match next
      case None => None
      case Some(s1) =>
      match ParseItems(s1, columnOf)
      case None => None
      case Some(items) => Some([item] + items)
  }

  function AddAll(p: Params, items: seq<Item>): Params
    decreases |items|
  {
    if items == [] then p else AddAll(Add(p, items[0]), items[1..])
  }

  /** What a query string means. */
  function Meaning(s: string, columnOf: ColumnOf): Option<Params> {
    match ParseItems(s, columnOf)
    case None => None
    case Some(items) => Some(AddAll(DEFAULT, items))
  }

  /** What one option more comes to. */
  lemma TurnMeans(input: string, columnOf: ColumnOf, p: Params)
    requires input != ""
    ensures ParseOption(input, columnOf).None? ==> ParseItems(input, columnOf).None?
    ensures ParseOption(input, columnOf).Some? ==>
      var (rest, item) := ParseOption(input, columnOf).value;
      if rest != "" && rest[0] != '&' then ParseItems(input, columnOf).None?
      else
        var more := ParseItems(if rest == "" then "" else rest[1..], columnOf);
        && (more.None? ==> ParseItems(input, columnOf).None?)
        && (more.Some? ==>
              && ParseItems(input, columnOf).Some?
              && AddAll(p, ParseItems(input, columnOf).value) == AddAll(Add(p, item), more.value))
  {
    if ParseItems(input, columnOf).Some? {
      var (rest, item) := ParseOption(input, columnOf).value;
      var more := ParseItems(if rest == "" then "" else rest[1..], columnOf).value;
      assert ParseItems(input, columnOf).value == [item] + more;
      assert ([item] + more)[1..] == more;
    }
  }

  lemma NothingLeft(columnOf: ColumnOf, p: Params)
    ensures ParseItems("", columnOf) == Some([]) && AddAll(p, []) == p
  {
  }

  /** `parse_cruding_qs_list_filter`: each turn takes one option off the input and
      leaves a strictly shorter one. */
  method ParseListQuery(qs: string, columnOf: ColumnOf) returns (r: Option<Params>)
    ensures r == Meaning(qs, columnOf)
  {
    hide ParseOption, ParseItems, AddAll;
    var input := qs;
    var params := DEFAULT;
    while input != ""
      invariant Meaning(qs, columnOf) ==
        match ParseItems(input, columnOf) case None => None case Some(items) => Some(AddAll(params, items))
      decreases |input|
    {
      TurnMeans(input, columnOf, params);
      var option := ParseOption(input, columnOf);
      if option.None? {
        return None;
      }
      var (rest, item) := option.value;
      match item {
        case FilterItem(f) => params := params.(filters := params.filters + [f]);
        case SortItem(s) => params := params.(sorts := params.sorts + [s]);
        case PageItem(n) => params := params.(page := n);
        case SizeItem(n) => params := params.(size := n);
      }
      if rest == "" {
        input := "";
      } else if rest[0] == '&' {
        input := rest[1..];
      } else {
        return None;
      }
    }
    NothingLeft(columnOf, params);
    return Some(params);
  }

  // ------------------------------------------------- what adding comes to

  function FiltersOf(items: seq<Item>): seq<Filter> {
    if items == [] then []
    else (if items[0].FilterItem? then [items[0].filter] else []) + FiltersOf(items[1..])
  }

  function SortsOf(items: seq<Item>): seq<Sort> {
    if items == [] then []
    else (if items[0].SortItem? then [items[0].sort] else []) + SortsOf(items[1..])
  }

  /** The last page number set, or `default`. */
  function LastPage(items: seq<Item>, default: nat): nat {
    if items == [] then default
    else if items[|items| - 1].PageItem? then items[|items| - 1].n
    else LastPage(items[..|items| - 1], default)
  }

  function LastSize(items: seq<Item>, default: nat): nat {
    if items == [] then default
    else if items[|items| - 1].SizeItem? then items[|items| - 1].n
    else LastSize(items[..|items| - 1], default)
  }

  lemma {:induction false} LastOfTail(items: seq<Item>, default: nat)
    requires items != []
    ensures LastPage(items, default) == LastPage(items[1..], if items[0].PageItem? then items[0].n else default)
    ensures LastSize(items, default) == LastSize(items[1..], if items[0].SizeItem? then items[0].n else default)
  {
    if |items| > 1 {
      var init := items[..|items| - 1];
      assert items[1..][..|items| - 2] == init[1..];
      LastOfTail(init, default);
    } else {
      assert items[1..] == [] && items[..0] == [];
    }
  }

  lemma FirstFilters(fs: seq<Filter>, items: seq<Item>)
    requires items != []
    ensures fs + FiltersOf(items) == (if items[0].FilterItem? then fs + [items[0].filter] else fs) + FiltersOf(items[1..])
  {
  }

  lemma FirstSorts(ss: seq<Sort>, items: seq<Item>)
    requires items != []
    ensures ss + SortsOf(items) == (if items[0].SortItem? then ss + [items[0].sort] else ss) + SortsOf(items[1..])
  {
  }

  /** Filters and sorts are kept in order; of page and size the last one counts. */
  lemma {:induction false} AddAllMeans(p: Params, items: seq<Item>)
    ensures AddAll(p, items).filters == p.filters + FiltersOf(items)
    ensures AddAll(p, items).sorts == p.sorts + SortsOf(items)
    ensures AddAll(p, items).page == LastPage(items, p.page)
    ensures AddAll(p, items).size == LastSize(items, p.size)
    decreases |items|
  {
    if items != [] {
      FirstFilters(p.filters, items);
      FirstSorts(p.sorts, items);
      AddAllMeans(Add(p, items[0]), items[1..]);
      LastOfTail(items, p.page);
      LastOfTail(items, p.size);
    }
  }
}
