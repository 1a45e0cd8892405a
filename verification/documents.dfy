/** The pivot value that every converter loads into and dumps from: the shape
    of the Python object that a YAML, JSON, TOML or INI load produces. */
module Documents {

  /** A mapping keeps its entries in insertion order, as a Python dict does;
      its keys are documents because a YAML mapping may have non-string keys. */
  datatype Document =
    | Null
    | Bool(b: bool)
    | Int(i: int)
    | Str(s: string)
    | List(items: seq<Document>)
    | Mapping(entries: seq<(Document, Document)>)

  /** The keys of a Python dict are pairwise different. */
  predicate DistinctKeys(entries: seq<(Document, Document)>)
  {
    forall i, j :: 0 <= i < j < |entries| ==> entries[i].0 != entries[j].0
  }

  /** `type(x).__name__` of the Python object a document stands for. */
  function TypeName(d: Document): string
  {
    match d
    case Null => "NoneType"
    case Bool(_) => "bool"
    case Int(_) => "int"
    case Str(_) => "str"
    case List(_) => "list"
    case Mapping(_) => "dict"
  }

  predicate IsDigit(c: char)
  {
    '0' <= c <= '9'
  }

  /** Decimal spelling of a natural number, most significant digit first. */
  function NatToString(n: nat): (s: string)
    ensures |s| >= 1 && forall i :: 0 <= i < |s| ==> IsDigit(s[i])
    ensures n >= 10 <==> |s| >= 2
  {
    var digit := "0123456789"[n % 10];
    if n < 10 then [digit] else NatToString(n / 10) + [digit]
  }

  /** `str(i)` for a Python int. */
  function IntToString(i: int): (s: string)
    ensures |s| >= 1 && (IsDigit(s[0]) || s[0] == '-')
  {
    if i < 0 then "-" + NatToString(-i) else NatToString(i)
  }

  /** `str(d)` (quoted == false) or `repr(d)` (quoted == true). Strings are
      quoted with single quotes; escaping of quotes and control characters
      inside them is not modelled. */
  function Show(d: Document, quoted: bool): string
    decreases d
  {
    match d
    case Null => "None"
    case Bool(b) => if b then "True" else "False"
    case Int(i) => IntToString(i)
    case Str(s) => if quoted then "'" + s + "'" else s
    case List(items) => "[" + ShowItems(items) + "]"
    case Mapping(entries) => "{" + ShowEntries(entries) + "}"
  }

  /** The elements of a list, each by `repr`, separated by ", ". */
  function ShowItems(items: seq<Document>): string
    decreases items
  {
    if items == [] then ""
    else if |items| == 1 then Show(items[0], true)
    else Show(items[0], true) + ", " + ShowItems(items[1..])
  }

  /** The entries of a dict, each as `repr(k): repr(v)`, separated by ", ". */
  function ShowEntries(entries: seq<(Document, Document)>): string
    decreases entries
  {
    if entries == [] then ""
    else if |entries| == 1 then ShowEntry(entries[0])
    else ShowEntry(entries[0]) + ", " + ShowEntries(entries[1..])
  }

  function ShowEntry(entry: (Document, Document)): string
    decreases entry
  {
    Show(entry.0, true) + ": " + Show(entry.1, true)
  }

  /** Python's `str()` of a document. */
  function Render(d: Document): (r: string)
    ensures d.Str? ==> r == d.s
    ensures d.List? ==> |r| >= 2 && r[0] == '[' && r[|r| - 1] == ']'
    ensures d.Mapping? ==> |r| >= 2 && r[0] == '{' && r[|r| - 1] == '}'
  {
    Show(d, false)
  }
}
