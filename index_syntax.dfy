/**
  `handle_index_syntax`: the serialiser that turns a Python subscript key
  (what `obj[key]` passes to `__getitem__`/`__setitem__`) into the text of a
  Julia index. Python counts from 0 and Julia from 1, so integer positions are
  shifted up by one; string labels are quoted; a full slice `:` stays `:`;
  a tuple becomes its comma-separated components. Anything else is an
  `IndexError`.
 */
module IndexSyntax {
  import opened Options
  import opened PyText

  /** The kinds of Python object the serialiser tells apart. */
  datatype PyKey =
    | Slice(start: Option<int>, stop: Option<int>, step: Option<int>)
    | Str(s: string)
    | Int(i: int)
    | Tuple(items: seq<PyKey>)
    | Other(typeName: string)  // float, list, None, ...: any other Python object

  /** What the serialiser returns: a bare int key gives an int, not a string. */
  datatype IndexResult =
    | IntIndex(n: int)
    | StrIndex(s: string)
    | IndexError(message: string)

  /** The messages of the two `raise IndexError(...)` statements, kept as written. */
  const TupleComponentMessage: string := "Index not must be string, integer or \":\""
  const KeyMessage: string := "Index must be string, integer or \":\""

  /** `key == slice(None)`: a slice with no start, stop or step. */
  predicate IsFullSlice(k: PyKey) {
    k == Slice(None, None, None)
  }

  /** A key a single component may be: a full slice, a str or an int. */
  predicate IsSimple(k: PyKey) {
    IsFullSlice(k) || k.Str? || k.Int?
  }

  /** The Julia text of one tuple component; None when it is not simple. */
  function Component(c: PyKey): Option<string> {
    if IsFullSlice(c) then Some(":")
    else if c.Str? then Some(Quoted(c.s))
    else if c.Int? then Some(Decimal(c.i + 1))
    else None
  }

  /** The texts of all components, in order, or None when any component is not simple. */
  function Components(items: seq<PyKey>): (r: Option<seq<string>>)
    ensures r.Some? <==> forall j :: 0 <= j < |items| ==> IsSimple(items[j])
    ensures r.Some? ==> |r.value| == |items|
    ensures r.Some? ==> forall j :: 0 <= j < |items| ==> r.value[j] == Component(items[j]).value
    decreases |items|
  {
    if |items| == 0 then Some([])
    else match (Component(items[0]), Components(items[1..]))
      case (Some(first), Some(rest)) => Some([first] + rest)
      case _ => None
  }

  /** What `handle_index_syntax(key)` returns or raises. */
  function JuliaIndex(key: PyKey): IndexResult {
    if key.Tuple? then
      match Components(key.items)
      case None => IndexError(TupleComponentMessage)
      case Some(parts) => StrIndex(Join(",", parts))
    else if IsFullSlice(key) then StrIndex(":")
    else if key.Str? then StrIndex(Quoted(key.s))
    else if key.Int? then IntIndex(key.i + 1)
    else IndexError(KeyMessage)
  }

  /**
    The serialiser as the source runs it: the tuple branch collects the
    component texts in a loop and stops at the first component that is not
    simple. (`indexes += ':'` extends the list by the characters of `':'`,
    which is the single element ":".)
   */
  method HandleIndexSyntax(key: PyKey) returns (r: IndexResult)
    ensures r == JuliaIndex(key)
    ensures key.Int? ==> r == IntIndex(key.i + 1)
    ensures key.Str? ==> r == StrIndex("\"" + key.s + "\"")
    ensures IsFullSlice(key) ==> r == StrIndex(":")
    ensures key == Tuple([]) ==> r == StrIndex("")
    ensures key.Tuple? && r.IndexError? <==>
      key.Tuple? && exists j :: 0 <= j < |key.items| && !IsSimple(key.items[j])
    ensures !key.Tuple? && r.IndexError? <==> !key.Tuple? && !IsSimple(key)
    ensures r.IndexError? ==> r.message == if key.Tuple? then TupleComponentMessage else KeyMessage
  {
    if key.Tuple? {
      var indexes: seq<string> := [];
      for n := 0 to |key.items|
        invariant |indexes| == n
        invariant forall j :: 0 <= j < n ==> IsSimple(key.items[j])
        invariant forall j :: 0 <= j < n ==> indexes[j] == Component(key.items[j]).value
      {
        var index := key.items[n];
        if IsFullSlice(index) {
          indexes := indexes + [":"];
        } else if index.Str? {
          indexes := indexes + [Quoted(index.s)];
        } else if index.Int? {
          indexes := indexes + [Decimal(index.i + 1)];
        } else {
          assert !IsSimple(key.items[n]);
          return IndexError(TupleComponentMessage);
        }
      }
      assert Components(key.items).value == indexes;
      r := StrIndex(Join(",", indexes));
    } else if IsFullSlice(key) {
      r := StrIndex(":");
    } else if key.Str? {
      r := StrIndex(Quoted(key.s));
    } else if key.Int? {
      r := IntIndex(key.i + 1);
    } else {
      r := IndexError(KeyMessage);
    }
  }

  /**
    For a non-empty tuple of ints and full slices the output splits at ','
    into exactly one field per component: ":" for a full slice, the decimal
    of i + 1 for an int i (so the field read back, minus one, is i).
   */
  lemma FieldsReadBack(items: seq<PyKey>)
    requires |items| > 0
    requires forall j :: 0 <= j < |items| ==> IsFullSlice(items[j]) || items[j].Int?
    ensures JuliaIndex(Tuple(items)).StrIndex?
    ensures |Split(JuliaIndex(Tuple(items)).s, ',')| == |items|
    ensures forall j :: 0 <= j < |items| && IsFullSlice(items[j]) ==>
      Split(JuliaIndex(Tuple(items)).s, ',')[j] == ":"
    ensures forall j :: 0 <= j < |items| && items[j].Int? ==>
      ParseDecimal(Split(JuliaIndex(Tuple(items)).s, ',')[j]) == Some(items[j].i + 1)
  {
    var parts := Components(items).value;
    forall j | 0 <= j < |parts| ensures ',' !in parts[j] {
      assert parts[j] == Component(items[j]).value;
    }
    SplitJoin(parts, ',');
    forall j | 0 <= j < |items| && items[j].Int?
      ensures ParseDecimal(parts[j]) == Some(items[j].i + 1)
    {
      DecimalRoundTrip(items[j].i + 1);
    }
  }

  lemma ComponentsAppend(a: seq<PyKey>, b: seq<PyKey>)
    requires Components(a).Some? && Components(b).Some?
    ensures Components(a + b) == Some(Components(a).value + Components(b).value)
  {
    var pa, pb := Components(a).value, Components(b).value;
    assert forall j :: 0 <= j < |a + b| ==> IsSimple((a + b)[j]) by {
      forall j | 0 <= j < |a + b| ensures IsSimple((a + b)[j]) {
        if j < |a| { assert (a + b)[j] == a[j]; } else { assert (a + b)[j] == b[j - |a|]; }
      }
    }
    var ab := Components(a + b).value;
    forall j | 0 <= j < |ab| ensures ab[j] == (pa + pb)[j] {
      if j < |a| { assert (a + b)[j] == a[j]; } else { assert (a + b)[j] == b[j - |a|]; }
    }
    assert ab == pa + pb;
  }

  /** The components of a tuple appear in order: the rendering of a + b is a's, a comma, then b's. */
  lemma TupleConcat(a: seq<PyKey>, b: seq<PyKey>)
    requires |a| > 0 && |b| > 0
    requires JuliaIndex(Tuple(a)).StrIndex? && JuliaIndex(Tuple(b)).StrIndex?
    ensures JuliaIndex(Tuple(a + b)) ==
      StrIndex(JuliaIndex(Tuple(a)).s + "," + JuliaIndex(Tuple(b)).s)
  {
    ComponentsAppend(a, b);
    JoinAppend(",", Components(a).value, Components(b).value);
  }

  /**
    Strings are quoted without escaping, so a label holding `","` renders
    exactly like a tuple of two labels.
   */
  lemma UnescapedLabelCollides()
    ensures JuliaIndex(Str("a\",\"b")) == JuliaIndex(Tuple([Str("a"), Str("b")]))
  {
  }

  /** The bare-key assertions of the repository's test of `handle_index_syntax`, and the keys its tests expect to fail. */
  lemma BareKeyExamples()
    ensures JuliaIndex(Int(1)) == IntIndex(2)
    ensures JuliaIndex(Str("a")) == StrIndex("\"a\"")
    ensures JuliaIndex(Slice(None, None, None)) == StrIndex(":")
    ensures JuliaIndex(Tuple([Int(8), Other("float")])) == IndexError(TupleComponentMessage)
    ensures JuliaIndex(Slice(Some(2), Some(56), None)) == IndexError(KeyMessage)
  {
  }

  /** `handle(("a", 1, 5, slice(None))) == '"a",2,6,:'`, from the repository's test. */
  lemma TupleExampleLabelFirst()
    ensures JuliaIndex(Tuple([Str("a"), Int(1), Int(5), Slice(None, None, None)])) == StrIndex("\"a\",2,6,:")
  {
  }

  /** `handle((slice(None), 'a', slice(None), 5)) == ':,"a",:,6'`, from the repository's test. */
  lemma TupleExampleSliceFirst()
    ensures JuliaIndex(Tuple([Slice(None, None, None), Str("a"), Slice(None, None, None), Int(5)])) == StrIndex(":,\"a\",:,6")
  {
  }
}
