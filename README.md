# pyDecisionProgramming: the Python-to-Julia translation layer

pyDecisionProgramming is a Python front end for the Julia package
DecisionProgramming.jl. It builds influence diagrams, compiles them to
mixed-integer programs and analyses the solved strategies. All of that work
runs in Julia: the Python classes write Julia source text and evaluate it
there. The code the repository runs itself is the thin layer that moves
values between the two languages. This project models that layer and proves
what it promises:

- `handle_index_syntax` turns a Python subscript key into Julia index text.
  An int `k` becomes the integer `k + 1`, because Python counts from 0 and
  Julia from 1. A str is put between double quotes. The full slice `:` stays
  `:`. A tuple becomes its components, rendered in order and joined by `,`.
  Any other key, or any other tuple component, raises `IndexError`.
  (module `IndexSyntax`, file `index_syntax.dfy`)
- `FixedPath.__init__` writes a node-to-state mapping as a Julia
  `Dict(...)` literal. There is one `"node" => state,` entry per item, in
  iteration order. A str state is quoted. Any other state is written as
  Python formats it, and an int state is *not* shifted by one.
  (module `FixedPathLiteral`, file `fixed_path.dfy`)
- `Paths.__next__` and `CompatiblePaths.__next__` take each path the Julia
  iterator yields and lower every element by one. `index_of` lowers the
  node index Julia returns by one. Both undo the shift by one that int keys
  get on the way out. (module `PathIndex`, file `paths.dfy`)
- The Python text operations these rely on: `str()` of an int, f-string
  quoting and `','.join`. Two readers, `Split` (Python's `str.split`) and
  `ParseDecimal`, are not called by the source and serve only to state the
  round trips. (modules `Options` and `PyText`, file `text.dfy`)

Some code is duplicated in the repository. `handle_index_syntax` is the same
in `pyDecisionProgramming/pyDecisionProgramming.py:128-163` and
`DecisionProgramming/juliaUtils.py:127-162`. `FixedPath`, `Paths`,
`CompatiblePaths` and `index_of` are the same in
`pyDecisionProgramming/pyDecisionProgramming.py` and
`DecisionProgramming/Diagram.py`. Each is modelled once, and the table
below cites whichever copy has the lines a member states.

The two loops in the source (the tuple branch of `handle_index_syntax` and
the `path_string +=` loop of `FixedPath`) are methods with loop invariants.
Each is proved equal to a specification function (`JuliaIndex`,
`DictLiteral`), and the properties are proved about those functions as
lemmas. `Paths`/`CompatiblePaths` are one class, `PathIndex.PathIterator`,
with a position into the paths the Julia object yields. Assumptions about
Python values:

- A key is a full slice `Slice(None, None, None)`, a partial slice, a str,
  an int, a tuple, or `Other` (a float or any other object).
- Python's `True`/`False` are ints, so the model takes them as `Int(1)` and
  `Int(0)`.
- A nested tuple inside a tuple is neither slice, str nor int, so it raises,
  as in the source.

The source has three behaviours a caller might not expect. The model keeps
each one as written:

- Inner characters are never escaped. A label holding `","` renders exactly
  like a tuple of two labels (`UnescapedLabelCollides`). A `FixedPath` node
  or label holding `"` makes the literal ambiguous, so the read-back lemmas
  exclude such mappings. The reader those lemmas use, `ReadDictLiteral`, is
  structural: a quoted text runs to the next `"`. Julia's own string literals
  also give `\` (escape) and `$` (interpolation) a meaning, so the reader
  agrees with Julia only on names and labels holding neither.
- Read back with Python's `str.split`, the empty text gives one empty
  field (`"".split(",")` is `[""]`). So the one-field-per-component
  property holds only for non-empty tuples. The empty tuple gives the empty
  string.
- An int state in `FixedPath` reaches Julia unshifted. Keys, by contrast, are
  raised by one (`NumberEntryReadBack` reads the int back as itself).

## Model

| member | source | states |
|---|---|---|
| `IndexSyntax.HandleIndexSyntax` | pyDecisionProgramming/pyDecisionProgramming.py:128-163 | The loop computes exactly `JuliaIndex(key)`. A bare int k gives the integer k+1, not a string. A bare str s gives `"` + s + `"`. A full slice gives `":"`. The empty tuple gives `""`. A tuple fails exactly when some component is not a full slice, str or int. A bare key fails exactly when it is none of those. Each failure carries its `raise` statement's message. |
| `IndexSyntax.Components` | pyDecisionProgramming/pyDecisionProgramming.py:141-151 | The tuple components' texts exist exactly when every component is a full slice, str or int. The list then has one text per component, in order, each the text of its own component. |
| `IndexSyntax.FieldsReadBack` | DecisionProgramming/juliaUtils.py:140-151 | For a non-empty tuple of ints and full slices, the output splits at `,` into exactly one field per component. A full-slice field is `":"`. An int field reads back as i+1, so the field minus one is the component. |
| `IndexSyntax.TupleConcat` | DecisionProgramming/juliaUtils.py:141-151 | Components are rendered in order. For non-empty tuples a and b that both render without error, the text for a+b is the text for a, a comma, then the text for b. |
| `IndexSyntax.UnescapedLabelCollides` | DecisionProgramming/juliaUtils.py:145-156 | Labels are quoted without escaping. `'a","b'` as a bare key gives the same text as the tuple `("a", "b")`. |
| `IndexSyntax.BareKeyExamples` | DecisionProgramming/juliaUtils.py:140-160 | From the repository's tests: `handle(1) == 2`, `handle('a') == '"a"'` and `handle(slice(None)) == ':'`. The key `[8, 4.0]` (a float component) and the bare partial slice `2:56` both raise IndexError. |
| `IndexSyntax.TupleExampleLabelFirst` | pyDecisionProgramming/pyDecisionProgramming.py:141-152 | From the repository's test: `("a",1,5,:)` gives `'"a",2,6,:'`. |
| `IndexSyntax.TupleExampleSliceFirst` | DecisionProgramming/juliaUtils.py:140-151 | From the repository's test: `(:,"a",:,5)` gives `':,"a",:,6'`. |
| `PyText.Decimal` | pyDecisionProgramming/pyDecisionProgramming.py:149 | `str(index+1)` is non-empty. It holds only digits and a minus sign, and never a comma or double quote. It has no leading zeros: it starts with `0` only when it is `"0"`, and for a negative int the minus sign is followed by a digit other than `0`. |
| `PyText.Quoted` | DecisionProgramming/juliaUtils.py:146 | The f-string `f'"{x}"'` is two characters longer than x, starts and ends with `"`, and has x itself, unescaped, between the quotes. |
| `PyText.JoinEnds` | DecisionProgramming/juliaUtils.py:151 | `','.join` of the empty list is the empty text. Otherwise the text starts with the first part and ends with the last. |
| `PyText.DecimalRoundTrip` | DecisionProgramming/juliaUtils.py:148 | The decimal text of every int, negative ones included, reads back as that int (Python's digit limit aside, see "Left out"). |
| `PyText.SplitJoin` | DecisionProgramming/juliaUtils.py:151 | Splitting `','.join(parts)` at `,` gives back the parts, when the list is non-empty and no part holds a comma. |
| `PyText.JoinAppend` | pyDecisionProgramming/pyDecisionProgramming.py:152 | For non-empty lists a and b, joining a+b gives the join of a, the separator, then the join of b. |
| `FixedPathLiteral.BuildPathString` | pyDecisionProgramming/pyDecisionProgramming.py:1356-1362 | The loop computes exactly `DictLiteral(paths)`. The result starts with `Dict(` and ends with `)`. It is `Dict()` exactly when the mapping is empty. |
| `FixedPathLiteral.LiteralShape` | DecisionProgramming/Diagram.py:860-866 | The literal always begins with `Dict(` and ends with `)`. It equals `Dict()` if and only if the mapping is empty. |
| `FixedPathLiteral.EntryShape` | DecisionProgramming/Diagram.py:861-865 | One item's entry is the quoted node name, ` => `, the state, then `,`. The state is the quoted label for a str state and the decimal of the int itself, unshifted, for an int state. |
| `FixedPathLiteral.EntriesAppend` | DecisionProgramming/Diagram.py:861-865 | Each item adds exactly its own entry, in iteration order. The entries of a+b are the entries of a followed by those of b. |
| `FixedPathLiteral.TextEntryReadBack` | DecisionProgramming/Diagram.py:862-863 | With no `"` in the key or the label, a str state's entry `"key" => "val",` reads back as that key and that label, followed by whatever comes after it. |
| `FixedPathLiteral.NumberEntryReadBack` | DecisionProgramming/Diagram.py:864-865 | With no `"` in the key, an int state's entry `"key" => val,` reads back as that key and the same int. No shift by one is applied. |
| `FixedPathLiteral.LiteralReadBack` | pyDecisionProgramming/pyDecisionProgramming.py:1356-1362 | The literal for a mapping of str/int states, with no `"` in any name or label, reads back as the same items in the same order. |
| `FixedPathLiteral.LiteralInjective` | pyDecisionProgramming/pyDecisionProgramming.py:1357-1361 | Two such mappings with the same literal are the same mapping. |
| `PathIndex.ToZeroBased` | DecisionProgramming/Diagram.py:951-955 | `[i-1 for i in path]` has the path's length. Element j is element j of the path minus one. |
| `PathIndex.ToOneBased` | DecisionProgramming/juliaUtils.py:147-148 | The int-key shift applied to a path: same length, element j raised by one. |
| `PathIndex.ShiftsInverse` | pyDecisionProgramming/pyDecisionProgramming.py:1398-1402 | Lowering by one undoes raising by one, and raising undoes lowering. |
| `PathIndex.IndexOf` | DecisionProgramming/Diagram.py:235 | `index_of` gives one less than the index Julia returns. A 1-based Julia index (1 or more) gives a 0-based Python index (0 or more), and nothing else does. |
| `PathIndex.IndexOfUndoesKeyShift` | DecisionProgramming/Diagram.py:235 | A bare int key k gives an integer. That integer through `index_of`'s `-1` is k again. |
| `PathIndex.PathKeyRoundTrip` | pyDecisionProgramming/pyDecisionProgramming.py:1401 | A non-empty 0-based path sent as a tuple key is written as its 1-based elements, split by commas, one field per element. A path read back in this form and lowered by `__next__`'s shift is the path that was sent. |
| `PathIndex.EachZeroBased` | DecisionProgramming/Diagram.py:902-906 | The paths still to come, as `__next__` yields them: one per Julia path, each lowered by one. |
| `PathIndex.PathIterator.constructor` | DecisionProgramming/Diagram.py:896 | The object holds the Julia iterable (its paths, 1-based). No Python iterator exists yet. |
| `PathIndex.PathIterator.Iter` | pyDecisionProgramming/pyDecisionProgramming.py:1445-1447 | `__iter__` starts a fresh iterator at the first path. All paths, lowered, are still to come. |
| `PathIndex.PathIterator.Next` | pyDecisionProgramming/pyDecisionProgramming.py:1398-1402 | Without `__iter__` there is no iterator. Once exhausted it stops. Otherwise it advances by one and yields the next path: same length, every element lowered by one. An empty path is yielded unchanged. The paths still to come lose their first element. |

## Left out

- Everything evaluated in Julia is not part of this model: `Main.eval`/`julia.eval`, `Pkg.*`, JuMP and Gurobi calls, and the
  classes that only forward to them. This covers `InfluenceDiagram`, `Model`, `DecisionVariables`,
  `PathCompatibilityVariables`, `ExpectedValue`, `StateProbabilities`, `UtilityDistribution`,
  `ProbabilityMatrix`, `UtilityMatrix`, `DecisionProgramming/JuMP.py` and
  `pyDecisionProgramming/Nodes.py`. Their behaviour lives in the Julia package.
- The influence-diagram algorithms (path enumeration, fixed/forbidden filtering, compatibility
  constraints, strategy extraction, state probabilities, utility distributions, VaR/CVaR) are not
  modelled: they are not implemented in these Python files. `PathIterator` takes the Julia paths
  as given.
- Julia's `index_of` lookup itself is foreign; `IndexOf` takes the 1-based index it returns as a parameter.
- `JuliaName`/`JuliaMain` attribute and item proxying (`__getitem__`, `__setitem__`, `__getattr__`)
  passes values through the Julia namespace. That is I/O with a foreign runtime. Only the key
  serialiser it calls is modelled.
- `JuliaName`'s random UUID names and `random_number_generator` depend on randomness and time.
- `ForbiddenPath` builds its text from Python's `str(list)` repr and a quote replacement. That repr
  is not modelled.
- `Paths.__init__` and `CompatiblePaths.__init__` build the Julia object by evaluated code. This
  includes the `states[0]` type test and the non-f-string command in `CompatiblePaths`, which
  affects only the foreign call. The constructor takes the resulting paths as a parameter.
- `PathIterator.Next`: a non-empty path comes back as a Python list, an empty one as whatever
  Julia gave (a tuple). The model has one sequence type for both, so it does not tell them apart.
- `FixedPathLiteral.BuildPathString`: node names are taken as strings. A non-str state other than
  an int is carried as the text Python's formatting gives it, because float and bool formatting
  are Python's own.
- `PyText.Decimal`: Python's limit on converting an int to text is not modelled. Since Python 3.11
  (and the 2022 security releases of 3.7-3.10), `str(n)` and `f"{n}"` raise `ValueError` for an int
  of more than 4300 digits. That affects `str(index+1)` in `handle_index_syntax` and `f"{val}"` for an
  int state in `FixedPath`. `Decimal` is total and writes every int. The limit is a setting of the
  interpreter, not of this code.
- Julia's escapes and interpolation in string literals: names, labels and str keys are written
  between quotes as they are, and what Julia then makes of a `\` or `$` inside them is Julia's
  parsing, not modelled here.
- Non-builtin integer types (for example numpy ints): `isinstance(x, int)` fails for them, so they
  would take the error path. The model only has Python's own ints.
- The example scripts, `run.py`, `pig_breeding.py`, `setup.py`, the tests and the `__init__` files
  are glue, data and solver runs. The test assertions about `handle_index_syntax` are stated as the
  lemmas `BareKeyExamples`, `TupleExampleLabelFirst` and `TupleExampleSliceFirst`.
