# StringJoiner model

A Dafny model of `dk.preuss.utils.StringJoiner`, a delimiter joiner with
conditional add helpers. The class wraps `java.util.StringJoiner`. Here the
wrapped joiner is replaced by the state its documentation describes:

- a `delimiter`, a `prefix` and a `suffix`, fixed at construction (`const`
  fields);
- an optional `emptyValue`, set by `SetEmptyValue`;
- the sequence of `fragments` added so far.

The value of a joiner is given by `PreussUtils.Render`:

- when nothing has been added, it is `emptyValue` if that is set, and
  `prefix + suffix` otherwise;
- otherwise it is `prefix`, then the fragments separated by `delimiter`, then
  `suffix`.

`StringJoiner.ToString` is `Render` of the current fields. `StringJoiner.Length`
is computed from a separate formula, `RenderLength`, which is the way the JDK
joiner keeps the length. The contract of `RenderLength` says it equals the
length of `Render`, so `Length` equals the length of `ToString()`.

A joiner is "empty" exactly when `fragments == []`. Every add adds one
element, so no separate flag is needed. This also covers "an empty string
was added", which leaves the joiner non-empty.

Java `null` is modelled with `Option`:

- a nullable `CharSequence` or `String` argument is an `Option<string>`;
- `Strings.Text` gives the text that `StringBuilder.append` and
  `String.valueOf` produce for it, which is `"null"` for `null`;
- a generic element `T` is an `Option<T>`, and its `toString` is a parameter
  `str: T -> string`;
- `Strings.ValueOf` models `String.valueOf(Object)`.

The caller's `Function<T, Boolean>` is a pure parameter of type
`Option<T> -> bool`.

The mutating methods return `this`, as the Java methods do for chaining.
`SetEmptyValue` states that `emptyValue` becomes the given text and the
fragments stay as they were. Each add-family method and `Merge` states its
whole new state: the new fragment sequence in terms of the old one, and that
`emptyValue` is unchanged. The three framing texts are constants.

`AddIfNotBlank` adds the raw element and ignores its prefix argument, exactly
as the code does (lib/src/main/java/dk/preuss/utils/StringJoiner.java:208).
Java overloads get distinct names:

- `addIfNotEmpty(String, Object)` is `AddIfNotEmptyObject`;
- `addIfNotEmpty(String, CharSequence)` is `AddIfNotEmpty`.

The `JoinerClients` module replays the documented scenarios through the
contracts alone. These include merging an empty joiner, a null element, merging `["x","y"]`
with delimiter `"-"` into `"a,x-y"`, the empty-value override, and the
conditional adds.

Files:

- `wrappers.dfy`: `Option`.
- `strings.dfy`: text of nullable values, `Join`, `Concat`, whitespace, and
  their lemmas.
- `string_joiner.dfy`: `Render`, `RenderLength`, their lemmas, and the
  `StringJoiner` class.
- `examples_client.dfy`: the client scenarios, and `EmptyStringStillCounts`,
  which states for any joiner what setting an empty value and then adding ""
  does.

## Model

| member | source | states |
|---|---|---|
| `PreussUtils.StringJoiner.Default` | lib/src/main/java/dk/preuss/utils/StringJoiner.java:8-15 | the delimiter is ",", prefix and suffix are empty, nothing is added, no empty value is set, and the value is "" |
| `PreussUtils.StringJoiner.WithDelimiter` | lib/src/main/java/dk/preuss/utils/StringJoiner.java:17-32 | keeps the given delimiter, with no prefix or suffix, nothing added, and a value of "" |
| `PreussUtils.StringJoiner.constructor` | lib/src/main/java/dk/preuss/utils/StringJoiner.java:34-53 | keeps the three texts, nothing is added, no empty value is set, and the value is `prefix + suffix` |
| `PreussUtils.StringJoiner.SetEmptyValue` | lib/src/main/java/dk/preuss/utils/StringJoiner.java:55-72 | stores the empty value and leaves the fragments alone; before any add the value becomes the empty value, and after an add the value does not change |
| `JoinerClients.EmptyStringStillCounts` | lib/src/main/java/dk/preuss/utils/StringJoiner.java:55-61 | for any joiner, setting an empty value and then adding "" leaves exactly one more fragment, "", so the joiner is no longer empty; its value ignores the empty value: `prefix + suffix` if nothing was added before, else the old join, the delimiter and "", framed |
| `PreussUtils.RenderFraming` | lib/src/main/java/dk/preuss/utils/StringJoiner.java:126-137 | with no fragment the value is the empty value when set, else `prefix + suffix`; with fragments it starts with the prefix, ends with the suffix, and what lies between them is the fragments joined by the delimiter |
| `PreussUtils.StringJoiner.ToString` | lib/src/main/java/dk/preuss/utils/StringJoiner.java:126-137 | definition: the empty value or `prefix + suffix` when there is no fragment, else `prefix + Join(fragments, delimiter) + suffix` |
| `PreussUtils.StringJoiner.Add` | lib/src/main/java/dk/preuss/utils/StringJoiner.java:75-86 | appends exactly one fragment at the end, "null" for a null element, and keeps the empty value; the new value is `prefix + element + suffix` for the first add, otherwise the old joined fragments plus the delimiter plus the element, framed |
| `PreussUtils.RenderAppend` | lib/src/main/java/dk/preuss/utils/StringJoiner.java:126-137 | the value after appending one fragment: `prefix + x + suffix` if it is the first, whatever the empty value; otherwise the previous joined fragments, the delimiter and `x`, between prefix and suffix |
| `Strings.JoinSnoc` | lib/src/main/java/dk/preuss/utils/StringJoiner.java:126-130 | joining one more fragment appends the delimiter and that fragment to the previous join; a single fragment joins to itself |
| `PreussUtils.StringJoiner.Merge` | lib/src/main/java/dk/preuss/utils/StringJoiner.java:88-110 | no effect when nothing was added to `other`; otherwise appends exactly one fragment, `other`'s fragments joined by `other`'s delimiter without its prefix or suffix; `other` is unchanged (when it is a different joiner) |
| `PreussUtils.StringJoiner.Length` | lib/src/main/java/dk/preuss/utils/StringJoiner.java:112-124 | the length computed from fragment lengths, delimiter count, prefix, suffix and empty value equals the length of `ToString()`, including in the empty case |
| `PreussUtils.RenderLength` | lib/src/main/java/dk/preuss/utils/StringJoiner.java:112-124 | the JDK-style length formula (fragment lengths, one delimiter per gap, prefix and suffix, or the empty value's length) equals the length of the rendered value for every state |
| `Strings.JoinLength` | lib/src/main/java/dk/preuss/utils/StringJoiner.java:112-118 | a non-empty join is as long as all fragments together plus one delimiter per gap between consecutive fragments |
| `PreussUtils.StringJoiner.AddIfTrue` | lib/src/main/java/dk/preuss/utils/StringJoiner.java:139-145 | adds exactly `prefix + String.valueOf(element)` when the predicate holds of the element, else changes nothing |
| `PreussUtils.StringJoiner.AddTrueElseOther` | lib/src/main/java/dk/preuss/utils/StringJoiner.java:155-160 | always adds exactly one fragment: `prefix + String.valueOf(element)` when the predicate holds, `prefix + other` otherwise |
| `PreussUtils.StringJoiner.AddConcatenated` | lib/src/main/java/dk/preuss/utils/StringJoiner.java:166-172 | appends exactly one fragment, the left-to-right concatenation of the text of all the pieces ("null" for a null piece); the loop keeps the concatenation of the pieces seen so far |
| `Strings.ConcatAppend` | lib/src/main/java/dk/preuss/utils/StringJoiner.java:167-170 | concatenating two runs of pieces side by side gives the concatenation of each run, one after the other |
| `Strings.ConcatPrefixStep` | lib/src/main/java/dk/preuss/utils/StringJoiner.java:168-170 | one more loop step appends exactly the text of the next piece |
| `Strings.ConcatPair` | lib/src/main/java/dk/preuss/utils/StringJoiner.java:141-158 | the two-piece concatenation used by the conditional adds is the text of the prefix followed by the text of the element |
| `PreussUtils.StringJoiner.AddIfNotEmptyObject` | lib/src/main/java/dk/preuss/utils/StringJoiner.java:179-184 | no effect for a null element or one whose text is empty; otherwise adds exactly `prefix + text` |
| `PreussUtils.StringJoiner.AddIfNotEmpty` | lib/src/main/java/dk/preuss/utils/StringJoiner.java:191-196 | no effect for a null or empty element; otherwise adds exactly `prefix + element` |
| `Strings.Text` | lib/src/main/java/dk/preuss/utils/StringJoiner.java:75-78 | a null character sequence reads as "null" and any other as itself, as `add` and `StringBuilder.append` (line 169) treat it |
| `Strings.ValueOf` | lib/src/main/java/dk/preuss/utils/StringJoiner.java:139-141 | `String.valueOf` of an element (lines 141, 158, 181): "null" for null, the element's own `toString` otherwise |
| `Strings.IsWhitespace` | lib/src/main/java/dk/preuss/utils/StringJoiner.java:207 | `Character.isWhitespace`: space, tab, newline and carriage return are whitespace; the non-breaking spaces and ASCII letters and digits are not |
| `PreussUtils.StringJoiner.AddIfNotBlank` | lib/src/main/java/dk/preuss/utils/StringJoiner.java:203-213 | adds the raw element, without the prefix, if and only if it is non-null and has a non-whitespace character; otherwise no effect, so at most one fragment is added |

## Left out

- The internals of `java.util.StringJoiner` (its element array, compaction and cached length) are not modelled. The joiner is modelled only by its documented state (fragments plus render); `RenderLength` restates the way it counts the length.
- `NullPointerException` for a null delimiter, prefix, suffix, empty value or `other`, for a null `newElements` array to `addConcatenated` (the loop at line 168 throws), and for a null `Function` given to `addIfTrue` or `addTrueElseOther` (lines 140, 157): these parameters have non-null types (`string`, `StringJoiner`, `seq`, a total function), so callers cannot pass null.
- Exceptions or side effects of the caller's predicate, including a `null` `Boolean` it might return. The predicate is a pure total function.
- `String.valueOf` on a generic `T`: `str` is the element type's `toString`; an element whose `toString` itself returns `null` is not modelled.
- `int` overflow of `length()`: `Length` returns an unbounded `nat`.
- Text counts Dafny characters (Unicode scalar values). Java's `length()` counts UTF-16 code units. The two agree only on text without supplementary characters.
- `IsWhitespace` follows the `Character.isWhitespace` table of Java 10 and later. No lemma depends on which characters the table contains.
- `Merge` where `other` is the same joiner is beyond the documented contract. The model still lets it happen and computes the added fragment from the state before the call.
- Thread safety: the model is single-threaded.
