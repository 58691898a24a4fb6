/**
  The Julia `Dict(...)` literal that `FixedPath.__init__` writes for a
  node -> state mapping before handing it to Julia's `FixedPath`. Each item of
  the mapping, in iteration order, gives one `"node" => state,` entry: a str
  state is quoted, any other state is written as Python formats it, and an int
  state is NOT shifted to Julia's 1-based counting.
 */
module FixedPathLiteral {
  import opened Options
  import opened PyText

  /**
    A state in the mapping: a label, an int, or any other Python object
    (a float, a bool, ...), carried as the text `f"{val}"` gives for it.
   */
  datatype Value = Text(s: string) | Number(n: int) | Formatted(shown: string)

  /** The mapping, as its `items()` in insertion order. */
  type Mapping = seq<(string, Value)>

  /** What `f"{val}"` writes for a state that is not a str. */
  function Shown(val: Value): string
    requires !val.Text?
  {
    match val
    case Number(n) => Decimal(n)
    case Formatted(shown) => shown
  }

  /**
    The entry one item contributes: the quoted node name, " => ", the state
    (a label quoted, anything else as formatted, an int unshifted), then ','.
   */
  function Entry(key: string, val: Value): string {
    if val.Text? then Quoted(key) + " => " + Quoted(val.s) + ","
    else Quoted(key) + " => " + Shown(val) + ","
  }

  /**
    The shape of one entry: the quoted node name, " => ", the state, then ','.
    Between the arrow and the comma stands the quoted label for a str state and
    the decimal of the int itself, unshifted, for an int state.
   */
  lemma EntryShape(key: string, val: Value)
    ensures |Entry(key, val)| > |key| + 6
    ensures Entry(key, val)[..|key| + 6] == Quoted(key) + " => "
    ensures Entry(key, val)[|Entry(key, val)| - 1] == ','
    ensures val.Text? ==> Entry(key, val)[|key| + 6..|Entry(key, val)| - 1] == Quoted(val.s)
    ensures val.Number? ==> Entry(key, val)[|key| + 6..|Entry(key, val)| - 1] == Decimal(val.n)
  {
  }

  /** The entries of all items, in order. */
  function Entries(items: Mapping): string {
    if |items| == 0 then "" else Entry(items[0].0, items[0].1) + Entries(items[1..])
  }

  /** The whole literal. */
  function DictLiteral(items: Mapping): string {
    "Dict(" + Entries(items) + ")"
  }

  lemma {:induction false} EntriesAppend(a: Mapping, b: Mapping)
    ensures Entries(a + b) == Entries(a) + Entries(b)
    decreases |a|
  {
    if |a| > 0 {
      assert (a + b)[0] == a[0];
      assert (a + b)[1..] == a[1..] + b;
      EntriesAppend(a[1..], b);
    } else {
      assert a + b == b;
    }
  }

  lemma EntriesSnoc(a: Mapping, item: (string, Value))
    ensures Entries(a + [item]) == Entries(a) + Entry(item.0, item.1)
  {
    EntriesAppend(a, [item]);
    assert Entries([item]) == Entry(item.0, item.1) + Entries([]);
  }

  /** Taking one more item of a mapping appends that item. */
  lemma TakeOneMore(items: Mapping, i: nat)
    requires i < |items|
    ensures items[..i + 1] == items[..i] + [items[i]]
  {
  }

  /** One turn of `BuildPathString`'s loop keeps its invariant. */
  lemma LoopStep(items: Mapping, i: nat, acc: string, entry: string)
    requires i < |items|
    requires acc == "Dict(" + Entries(items[..i])
    requires entry == Entry(items[i].0, items[i].1)
    ensures acc + entry == "Dict(" + Entries(items[..i + 1])
  {
    var done := items[..i];
    calc {
      "Dict(" + Entries(items[..i + 1]);
    == { TakeOneMore(items, i); }
      "Dict(" + Entries(done + [items[i]]);
    == { EntriesSnoc(done, items[i]); }
      "Dict(" + (Entries(done) + entry);
    == { Associative("Dict(", Entries(done), entry); }
      acc + entry;
    }
  }

  /**
    The literal starts with "Dict(" and ends with ")", and it is exactly
    "Dict()" when the mapping is empty: every item adds a non-empty entry.
   */
  lemma LiteralShape(items: Mapping)
    ensures |DictLiteral(items)| >= 6
    ensures DictLiteral(items)[..5] == "Dict(" && DictLiteral(items)[|DictLiteral(items)| - 1] == ')'
    ensures DictLiteral(items) == "Dict()" <==> items == []
  {
  }

  /**
    `FixedPath.__init__`'s loop: `path_string` starts as "Dict(", grows by one
    entry per item, and is closed with ")".
   */
  method BuildPathString(paths: Mapping) returns (pathString: string)
    ensures pathString == DictLiteral(paths)
    ensures |pathString| >= 6 && pathString[..5] == "Dict(" && pathString[|pathString| - 1] == ')'
    ensures pathString == "Dict()" <==> paths == []
  {
    pathString := "Dict(";
    for i := 0 to |paths|
      invariant pathString == "Dict(" + Entries(paths[..i])
    {
      var (key, val) := paths[i];
      var entry;
      if val.Text? {
        entry := Quoted(key) + " => " + Quoted(val.s) + ",";
      } else {
        entry := Quoted(key) + " => " + Shown(val) + ",";
      }
      LoopStep(paths, i, pathString, entry);
      pathString := pathString + entry;
    }
    assert paths[..|paths|] == paths;
    pathString := pathString + ")";
    assert pathString == DictLiteral(paths);
    LiteralShape(paths);
  }

  /** The text before the first `c` and the text after it; None when `c` does not occur. */
  function BreakAt(t: string, c: char): (r: Option<(string, string)>)
    ensures r.Some? ==> |r.value.1| < |t|
    decreases |t|
  {
    if |t| == 0 then None
    else if t[0] == c then Some(("", t[1..]))
    else match BreakAt(t[1..], c)
      case None => None
      case Some((a, b)) => Some(([t[0]] + a, b))
  }

  lemma {:induction false} BreakAtFirst(a: string, c: char, b: string)
    requires c !in a
    ensures BreakAt(a + [c] + b, c) == Some((a, b))
    decreases |a|
  {
    var t := a + [c] + b;
    if |a| == 0 {
      assert t[1..] == b;
    } else {
      assert t[1..] == a[1..] + [c] + b;
      BreakAtFirst(a[1..], c, b);
      assert [a[0]] + a[1..] == a;
    }
  }

  /**
    A structural reader for the shapes the builder writes: a quoted key,
    " => ", then a quoted label or an integer, then ','. A quoted text runs
    to the next '"'. It does not know Julia's escapes (`\`) or string
    interpolation (`$`), so it agrees with Julia only on text holding neither.
   */
  function ReadEntries(t: string): Option<Mapping>
    decreases |t|
  {
    if |t| == 0 then Some([])
    else if t[0] != '"' then None
    else match BreakAt(t[1..], '"')
      case None => None
      case Some((key, afterKey)) =>
        if |afterKey| < 4 || afterKey[..4] != " => " then None
        else
          var v := afterKey[4..];
          if |v| > 0 && v[0] == '"' then
            match BreakAt(v[1..], '"')
            case None => None
            case Some((quoted, afterText)) =>
              if |afterText| == 0 || afterText[0] != ',' then None
              else match ReadEntries(afterText[1..])
                case None => None
                case Some(rest) => Some([(key, Text(quoted))] + rest)
          else
            match BreakAt(v, ',')
            case None => None
            case Some((digits, afterNumber)) =>
              match (ParseDecimal(digits), ReadEntries(afterNumber))
              case (Some(n), Some(rest)) => Some([(key, Number(n))] + rest)
              case _ => None
  }

  /** Reads a whole `Dict(...)` literal back. */
  function ReadDictLiteral(s: string): Option<Mapping> {
    if |s| < 6 || s[..5] != "Dict(" || s[|s| - 1] != ')' then None
    else ReadEntries(s[5..|s| - 1])
  }

  /**
    The mappings whose literal the structural reader recovers: no double
    quote in a node name or a label, and every state a label or an int.
   */
  predicate Readable(items: Mapping) {
    forall j :: 0 <= j < |items| ==>
      '"' !in items[j].0 && !items[j].1.Formatted? &&
      (items[j].1.Text? ==> '"' !in items[j].1.s)
  }

  lemma TextEntryReadBack(key: string, text: string, rest: string, more: Mapping)
    requires '"' !in key && '"' !in text
    requires ReadEntries(rest) == Some(more)
    ensures ReadEntries(Entry(key, Text(text)) + rest) == Some([(key, Text(text))] + more)
  {
    var afterText := "," + rest;
    var v := ['"'] + text + ['"'] + afterText;
    var afterKey := " => " + v;
    var t := ['"'] + key + ['"'] + afterKey;
    assert t == Entry(key, Text(text)) + rest;
    assert t[1..] == key + ['"'] + afterKey;
    BreakAtFirst(key, '"', afterKey);
    assert afterKey[..4] == " => " && afterKey[4..] == v;
    assert v[1..] == text + ['"'] + afterText;
    BreakAtFirst(text, '"', afterText);
    assert afterText[1..] == rest;
  }

  lemma NumberEntryReadBack(key: string, n: int, rest: string, more: Mapping)
    requires '"' !in key
    requires ReadEntries(rest) == Some(more)
    ensures ReadEntries(Entry(key, Number(n)) + rest) == Some([(key, Number(n))] + more)
  {
    var digits := Decimal(n);
    var v := digits + [','] + rest;
    var afterKey := " => " + v;
    var t := ['"'] + key + ['"'] + afterKey;
    assert t == Entry(key, Number(n)) + rest;
    assert t[1..] == key + ['"'] + afterKey;
    BreakAtFirst(key, '"', afterKey);
    assert afterKey[..4] == " => " && afterKey[4..] == v;
    assert v[0] == digits[0];
    BreakAtFirst(digits, ',', rest);
    DecimalRoundTrip(n);
  }

  lemma EntryReadBack(key: string, val: Value, rest: string, more: Mapping)
    requires '"' !in key && !val.Formatted? && (val.Text? ==> '"' !in val.s)
    requires ReadEntries(rest) == Some(more)
    ensures ReadEntries(Entry(key, val) + rest) == Some([(key, val)] + more)
  {
    if val.Text? {
      TextEntryReadBack(key, val.s, rest, more);
    } else {
      NumberEntryReadBack(key, val.n, rest, more);
    }
  }

  lemma {:induction false} EntriesReadBack(items: Mapping)
    requires Readable(items)
    ensures ReadEntries(Entries(items)) == Some(items)
    decreases |items|
  {
    if |items| > 0 {
      var rest := items[1..];
      assert Readable(rest) by {
        forall j | 0 <= j < |rest| ensures rest[j] == items[j + 1] { }
      }
      EntriesReadBack(rest);
      EntryReadBack(items[0].0, items[0].1, Entries(rest), rest);
      assert [items[0]] + rest == items;
    }
  }

  /** The literal of a readable mapping reads back as that mapping: same items, same order, ints unshifted. */
  lemma LiteralReadBack(items: Mapping)
    requires Readable(items)
    ensures ReadDictLiteral(DictLiteral(items)) == Some(items)
  {
    var s := DictLiteral(items);
    assert s[5..|s| - 1] == Entries(items);
    EntriesReadBack(items);
  }

  /** Hence two readable mappings with the same literal are the same mapping. */
  lemma LiteralInjective(a: Mapping, b: Mapping)
    requires Readable(a) && Readable(b)
    requires DictLiteral(a) == DictLiteral(b)
    ensures a == b
  {
    LiteralReadBack(a);
    LiteralReadBack(b);
  }
}
