# structuredvg in Dafny

A model of the core of structuredvg, a Rust crate that represents SVG 1.1
elements as typed structs and writes them out as XML text. The model covers
four parts.

- **The runtime.** This is the output sink and write settings (`src/io.rs`).
  It also covers the `DelimitedValues` container and the language tag and
  `data-` attributes (`src/common.rs`), inline CSS declaration lists
  (`src/style.rs`), and the path-data encoder with the `<path>` element
  (`src/path.rs`).
- **The `BundleAttributes` derive macro.** The model covers how a field's
  annotation is parsed and its policies chosen (`macros/src/bundle.rs`). It
  covers how a struct's fields become attribute blocks and nested-bundle
  blocks (`macros/src/lib.rs`), and how field errors are collected
  (`macros/src/util.rs`). It also gives the run-time meaning of the
  generated `write_attributes`: what it writes and the `wrote_any_attributes`
  flag it returns.
- **The derived bundles.** `CoreAttributes`, `ConditionalProcessing`,
  `GraphicalEvents` and `ElementPath` appear as instances of the macro
  model: their field annotations are expanded, then bound to values and
  written.
- **The naming helpers of the specification scraper.** These are attribute
  value normalisation, bundle and element type names, link-text unquoting,
  element modules, documentation links, and the attribute-group registry
  with its comma-separated round trip.

The output sink is a class `Io.Writer` whose `written` text only grows. A
method that writes states the new text as the old text plus a function of
its inputs. Lemmas about those functions carry the properties. Classes keep
the source's in-place state:

- `Common.DelimitedValues` (the `inner` string),
- `Style.DeclarationList` (the declarations),
- `ScraperAttribute.Registry` (the `GROUPS` vector).

Each is updated by methods proved against pure specification functions.
Numbers are opaque 32-bit patterns. Every writer that formats a number takes
the decimal formatter as a parameter.

Panics of the original become `None` (or `Err`) in the model. Two examples
are indexing the first byte of an empty segment and unwrapping a missing
piece.

## Model

| member | source | states |
|---|---|---|
| Io.DefaultSettings | src/io.rs:10-14 | the default settings have precision 4 |
| Io.Writer.constructor | src/io.rs:30-38 | a fresh sink holds nothing |
| Io.Writer.Write | src/io.rs:30-38 | a write appends exactly the given bytes and nothing else |
| Io.WriteToString | src/io.rs:30-38 | the string is exactly what `write_to` wrote into a fresh cursor |
| Io.SingleBundle | src/io.rs:156-166 | a single attribute as a bundle writes exactly its attribute and reports true |
| Io.OptionBundle | src/io.rs:168-183 | `None` writes nothing and reports false; `Some(a)` writes what `a` writes and reports true |
| Io.Rendered | src/io.rs:185-199 | one text per attribute, in order |
| Io.VecBundle | src/io.rs:185-199 | a vector writes its attributes' texts concatenated with no separator, and reports true exactly when it is non-empty |
| Io.WriteSingleBundle | src/io.rs:156-166 | the sink grows by the single attribute's text, and the method returns true |
| Io.WriteOptionBundle | src/io.rs:168-183 | the sink grows by the optional attribute's text, and the flag is set exactly for `Some` |
| Io.WriteVecBundle | src/io.rs:185-199 | the loop appends each attribute in order with no separator, and sets the flag exactly when the vector is non-empty |
| Text.FindFrom | src/common.rs:84-90 | the result is the first occurrence at or after the start position; `None` means there is none |
| Text.Find | src/common.rs:111-117 | `str::find`: the first occurrence; `None` exactly when the text does not occur |
| Text.RFind | src/common.rs:69-70 | `str::rfind`: an index of the character with no later occurrence; `None` exactly when it is absent |
| Text.Split | src/common.rs:121-123 | `str::split` on a character yields at least one piece, and no piece holds the delimiter |
| Text.JoinSplit | src/common.rs:121-123 | joining the pieces with the delimiter gives the text back |
| Text.SplitJoin | spec-scraper/src/attribute.rs:279-298 | splitting delimiter-free parts joined by the delimiter gives the parts back |
| Text.SplitNoDelimiter | src/common.rs:121-123 | a text without the delimiter is one piece |
| Text.SplitPieces | spec-scraper/src/main.rs:128-131 | there are two or more pieces exactly when the delimiter occurs |
| Text.SplitConcat | src/common.rs:121-123 | splitting around one delimiter splits each side and concatenates |
| Text.JoinAppend | spec-scraper/src/attribute.rs:283-289 | joining a concatenation puts one separator between the two joins |
| Text.Words | spec-scraper/src/attribute.rs:23-25 | `split_whitespace` yields non-empty, whitespace-free words, and the first starts with the text's first character |
| Text.WordsAfterWord | spec-scraper/src/attribute.rs:23-25 | a word followed by whitespace or the end is the first word |
| Text.WordsAfterSpace | spec-scraper/src/attribute.rs:23-25 | a leading space changes no word |
| Text.WordsJoin | spec-scraper/src/attribute.rs:23-25 | the words of words joined by single spaces are those words |
| Text.JoinWordsSingleSpaced | spec-scraper/src/attribute.rs:23-25 | words joined by `" "` are single-spaced, with no leading or trailing whitespace |
| Math.PositiveNumberText | src/math.rs:89-98 | a positive number writes its value formatted at the given precision |
| Common.NewLanguageTag | src/common.rs:192-194 | `LanguageTag::new` never fails, and `to_string` gives the text back |
| Common.LanguageTagFromStr | src/common.rs:203-208 | `from_str` never fails, and `to_string` gives the text back |
| Common.LanguageTagToString | src/common.rs:197-201 | the tag's text; `Common.LanguageTagFromStr` is stated through it |
| Common.AsStr | src/io.rs:69-89 | `as_str` is `Some(text)` exactly for `Cow<str>`; `String` and `LanguageTag` give `None` |
| Common.KindOf | src/common.rs:14 | the value type `V` a value belongs to; `Common.FromStringUnsafe` is proved to return the requested type |
| Common.ValueToString | src/io.rs:75-101 | the `to_string` of each value type; `Common.Serialized` and `Common.WriteValue` are proved to agree with it |
| Common.WriteValue | src/io.rs:75-101 | every value kind writes the text a list stores for it, which is its `as_str()` text when it lends one |
| Common.Serialized | src/common.rs:43-46 | the text stored for a value is its `as_str()`, or else its `to_string()`; both are its text |
| Common.FromStringUnsafe | src/common.rs:210-214 | reading stored text back gives a value of the list's type whose stored text is that text |
| Common.FromStringUnsafeRoundTrip | src/common.rs:127-131 | reading back the stored text of a value gives the same value |
| Common.Pushed | src/common.rs:36-64 | on empty storage the result is the text; otherwise it is exactly the old storage, one delimiter and the text; a delimiter-free text becomes one new last entry |
| Common.PushAll | src/common.rs:36-64 | pushing several texts keeps the existing storage as a prefix, and pushing none leaves it as it is |
| Common.PushAllEntries | src/common.rs:121-123 | pushing non-empty, delimiter-free texts onto a new list makes `iter` yield exactly those texts, in order |
| Common.EmptyListIteratesOneEmptyEntry | src/common.rs:121-123 | a new list iterates as one empty entry |
| Common.Popped | src/common.rs:69-81 | with no delimiter, storage is kept and `None` is returned; otherwise storage, delimiter and result rebuild the old storage, and the result holds no delimiter |
| Common.PopSingleEntryKeepsIt | src/common.rs:69-81 | popping the only entry returns nothing and keeps it |
| Common.Removed | src/common.rs:84-109 | the result is true exactly when the text occurs; when it is absent the storage is unchanged |
| Common.RemoveEntry | src/common.rs:90-105 | removing entry k cuts the entry with the delimiter after a first entry, before a last one, on both sides of a middle one; a sole entry empties the storage |
| Common.RemovedOnly | src/common.rs:96-104 | removing the whole storage leaves nothing |
| Common.RemovedFirst | src/common.rs:96-104 | a match at the start takes the delimiter after it |
| Common.RemovedLast | src/common.rs:96-104 | a match at the end takes the delimiter before it |
| Common.RemovedMiddle | src/common.rs:96-104 | a match in the middle takes one delimiter on each side |
| Common.RemoveMiddleEntryJoinsNeighbours | src/common.rs:96-104 | removing `b` from `a,b,c` leaves `ac` |
| Common.RemoveMatchesInsideEntries | src/common.rs:84-90 | removing `b` from `ab,c` cuts inside the entry `ab` and leaves `c` |
| Common.DelimitedValues.constructor | src/common.rs:21-34 | a new list has empty storage |
| Common.DelimitedValues.Push | src/common.rs:36-48 | the storage becomes `Pushed` of the old storage and the value's text |
| Common.DelimitedValues.PushStr | src/common.rs:56-64 | the storage becomes `Pushed` of the old storage and the given text |
| Common.DelimitedValues.Pop | src/common.rs:69-81 | the storage and result are `Popped` of the old storage; the tail is read back as the list's type |
| Common.DelimitedValues.Remove | src/common.rs:84-109 | the storage and result are `Removed` of the old storage and the value's text |
| Common.DelimitedValues.Contains | src/common.rs:111-118 | the result is substring membership of the value's text |
| Common.DelimitedValues.Iter | src/common.rs:121-123 | the pieces are delimiter-free, there is at least one, and joined by the delimiter they rebuild the storage |
| Common.DelimitedValues.IterValues | src/common.rs:126-132 | one value per piece, of the list's type, whose stored text is the piece |
| Common.DelimitedValues.ToString | src/common.rs:141-145 | the storage, verbatim |
| Common.DelimitedValues.WriteTo | src/common.rs:147-159 | the sink grows by the storage, verbatim |
| Common.NewDataAttribute | src/common.rs:345-350 | the name is `data-` followed by the given name; the value is kept |
| Common.WriteAttribute | src/common.rs:358-364 | the output is exactly `name="value"`, with nothing escaped |
| Common.WriteAttributeTo | src/common.rs:390-396 | the sink grows by `name="value"` |
| Style.IsEmpty | src/style.rs:57-61 | `is_empty` holds exactly for `Empty` |
| Style.DeclarationText | src/style.rs:63-80 | `Empty` writes nothing and a property `name:value`; its properties are stated by `Style.DeclarationTextParts` |
| Style.DeclarationTextParts | src/style.rs:63-80 | only `Empty` writes nothing; a property's text reads back as its name, `:` and its value |
| Style.NonEmpty | src/style.rs:25-29 | the filter keeps only properties, and never grows the list |
| Style.NonEmptyKeepsProperties | src/style.rs:25-29 | a list without `Empty` entries is kept as it is |
| Style.NonEmptyNothing | src/style.rs:25-30 | the filter leaves nothing exactly when every entry is `Empty` |
| Style.NonEmptyShrinks | src/style.rs:25-29 | any `Empty` entry makes the filtered list shorter |
| Style.Min | src/style.rs:30-31 | `take(n)` on `m` items yields the smaller of the two |
| Style.Terminated | src/style.rs:30-37 | the loop writes at least one character per declaration and, when it writes any, ends with `;` |
| Style.TerminatedJoin | src/style.rs:30-37 | the loop's output is the texts joined by `;` plus one trailing `;` |
| Style.ListText | src/style.rs:19-45 | the output as written; its cases are stated by `Style.ListTextWithoutEmpty`, `Style.ListTextAllEmpty` and `Style.ListTextWithEmpty` |
| Style.ListTextWithoutEmpty | src/style.rs:19-45 | a list with no `Empty` entries writes its declarations joined by `;`, with no trailing `;` |
| Style.ListTextAllEmpty | src/style.rs:25-30 | a list writes nothing exactly when it is empty or every entry is `Empty` (both directions) |
| Style.ListTextWithEmpty | src/style.rs:30-42 | with an `Empty` entry, every property is written followed by `;`, and then the list's last declaration again |
| Style.EmptyInTheMiddleRepeatsTheLast | src/style.rs:30-42 | `[a:1, Empty, b:2]` writes `a:1;b:2;b:2` |
| Style.EmptyAtTheEndLeavesASemicolon | src/style.rs:30-42 | `[a:1, b:2, Empty]` writes `a:1;b:2;` |
| Style.WriteDeclaration | src/style.rs:64-80 | `Empty` writes nothing, a property writes `name:value` |
| Style.WriteTerminated | src/style.rs:30-37 | the loop appends the first `n` filtered declarations, each followed by `;` |
| Style.WriteDeclarations | src/style.rs:19-45 | the sink grows by the list's text as `write_to` forms it |
| Style.DeclarationList.constructor | src/style.rs:3-6 | a default list is empty |
| Style.DeclarationList.PushProperty | src/style.rs:10-15 | exactly one property is appended, and earlier declarations are untouched |
| Style.DeclarationList.WriteTo | src/style.rs:19-45 | the sink grows by the list's text |
| Path.ArgumentCount | src/path.rs:30-43 | only `Close` takes no arguments, and only the elliptical arc takes the most, seven |
| Path.Absolute | src/path.rs:45-58 | every absolute letter is upper case, except `Close`'s `z` |
| Path.Relative | src/path.rs:60-73 | every relative letter is lower case |
| Path.LettersIdentifyCommands | src/path.rs:45-73 | distinct commands have distinct absolute and distinct relative letters; only `Close` shares a letter between the two forms |
| Path.RelativeIsLowerCase | src/path.rs:45-73 | absolute letters are upper case and relative letters are their lower case; `Close` is `z` in both |
| Path.CommandOf | src/path.rs:114-128 | the command of the data; the `CommandData` subset type ties its argument count to the arguments |
| Path.Args | src/path.rs:130-143 | the arguments are as many as the command takes |
| Path.Len | src/path.rs:145-147 | `len` is the number of arguments |
| Path.FormattedArgs | src/path.rs:169-221 | one formatted text per argument |
| Path.FormattedArgsAt | src/path.rs:169-221 | the j-th text is the j-th argument formatted at the precision |
| Path.Letter | src/path.rs:163-167 | the letter is lower case exactly for a relative segment, except `Close`, which writes `z` either way |
| Path.SegmentText | src/path.rs:157-227 | a segment's text starts with its letter; a `Close` segment is its letter alone |
| Path.SegmentFields | src/path.rs:163-221 | after the letter, splitting on spaces gives exactly the arguments, each formatted at the settings' precision |
| Path.WriteSegment | src/path.rs:157-227 | the sink grows by the segment's text |
| Path.PathText | src/path.rs:240-251 | the segments' texts with no separator; its properties are stated by the lemmas that follow |
| Path.PathTextStartsWithFirstLetter | src/path.rs:240-251 | a path's text has at least one character per segment and starts with the first segment's letter |
| Path.PathTextAppend | src/path.rs:240-251 | a path's text is the concatenation of its runs' texts, with no separator |
| Path.SegmentStartsWithLetter | src/path.rs:240-251 | segment i starts with its own letter, right after the text of the segments before it |
| Path.WritePathData | src/path.rs:240-251 | the loop appends every segment's text in order |
| MacroUtil.Combine | macros/src/util.rs:10 | the combined error holds this error's messages, followed by exactly the other's |
| MacroUtil.Errors | macros/src/util.rs:6-7 | the errors are none exactly when no element is an error |
| MacroUtil.Values | macros/src/util.rs:13-15 | with no error, the values are all elements' values, in order |
| MacroUtil.MessagesAppend | macros/src/util.rs:9-11 | the messages of two error lists are concatenated |
| MacroUtil.CombineAll | macros/src/util.rs:8-11 | folding `combine` keeps the first error's messages first |
| MacroUtil.CombineAllMessages | macros/src/util.rs:8-11 | folding `combine` keeps every message, in order |
| MacroUtil.Flatten | macros/src/util.rs:5-16 | `Ok` with every value, in order, exactly when no element is an error; otherwise every error's messages, in order |
| MacroUtil.FlattenIgnoresValuesOnError | macros/src/util.rs:6-12 | once one error is present, successful values make no difference |
| MacroUtil.FlattenResultVec | macros/src/util.rs:5-16 | the loop gives `Flatten`; the `unwrap` cannot fail because the error branch has an error to pop |
| MacroBundle.IsIdent | macros/src/bundle.rs:15-22 | `is_ident`; `MacroBundle.IsIdentIsSimplePath` states what it accepts |
| MacroBundle.IsIdentIsSimplePath | macros/src/bundle.rs:15-22 | `is_ident(name)` holds exactly for the bare path `name` |
| MacroBundle.KeyIndex | macros/src/bundle.rs:39-47 | the index of the first pair with the key; `None` exactly when no pair has it |
| MacroBundle.Get | macros/src/bundle.rs:39-47 | `get` returns the expression of the first pair with the key; `None` exactly when no pair has it |
| MacroBundle.DuplicateKey | macros/src/bundle.rs:55-58 | the duplicate-key error: `duplicate key`, then `previously defined here` |
| MacroBundle.ParseExpr | macros/src/bundle.rs:61 | an expression token or an identifier parses; an identifier becomes a path that `is_ident` reads back as that identifier; anything else is an error |
| MacroBundle.ParseRest | macros/src/bundle.rs:50-68 | a successful parse adds one pair per four tokens read (`key`, `:`, expression, `,`), the last comma optional |
| MacroBundle.Parse | macros/src/bundle.rs:50-68 | an empty stream gives no pairs; a successful parse read four tokens per pair, the last comma optional |
| MacroBundle.ParseRestDistinct | macros/src/bundle.rs:50-68 | parsing keeps keys distinct |
| MacroBundle.ParseDistinct | macros/src/bundle.rs:55-59 | every parsed pair list has distinct keys |
| MacroBundle.ParseRenderRest | macros/src/bundle.rs:50-68 | rendered pairs parse to the same pairs in order, or to the duplicate-key error |
| MacroBundle.ParseRenderedPairs | macros/src/bundle.rs:50-68 | `k: v` pairs, with or without a trailing comma, parse back in source order exactly when their keys are distinct; a repeated key is an error |
| MacroBundle.ParsePairs | macros/src/bundle.rs:50-68 | the `while` loop gives `Parse` of its tokens |
| MacroBundle.AttrPairs | macros/src/bundle.rs:13-36 | a bare `#[name]` gives empty pairs, a non-brace list is an error, braces parse their tokens, other forms and names are skipped |
| MacroBundle.FromFieldAttribute | macros/src/bundle.rs:12-37 | the first attribute of the given name decides; `None` exactly when no attribute has it |
| MacroBundle.IsOption | macros/src/bundle.rs:188-205 | `is_option`; `MacroBundle.OptionTypesAreOptions` and `MacroBundle.OtherTypesAreNotOptions` state which types count |
| MacroBundle.OptionTypesAreOptions | macros/src/bundle.rs:188-205 | a last segment `Option<T>` counts under any prefix |
| MacroBundle.OtherTypesAreNotOptions | macros/src/bundle.rs:188-205 | a bare `Option`, an `Option` without exactly one argument, another last segment, an empty path or a non-path type does not count |
| MacroBundle.SelectValue | macros/src/bundle.rs:220-239 | `transform` wins over `literal`, which must be a byte string; with neither the policy is `Pass`; the transform expression and the literal's bytes are carried over |
| MacroBundle.CheckOf | macros/src/bundle.rs:241-270 | a closure gives `Other` holding that closure; `Default`, `None` and `Option` give their checks; `Option` needs an `Option` type; anything else is an error |
| MacroBundle.SelectCheck | macros/src/bundle.rs:241-277 | an explicit check decides; otherwise `Optional` exactly for an `Option` type, and `None` for any other |
| MacroBundle.SelectName | macros/src/bundle.rs:279-291 | a `name` string literal wins; a non-string is an error; with no `name`, the field identifier verbatim |
| MacroBundle.NewXmlAttribute | macros/src/bundle.rs:207-300 | no descriptor without the annotation; otherwise the annotation's error, a missing identifier, then the first error of the value, check and name policies in that order; with none, the descriptor of the field's name, output name, type, check and value policy |
| MacroBundle.PlainXmlAttribute | macros/src/bundle.rs:207-300 | a bare `#[xml_attribute]` on a named field is `Pass`, under the field's name, `Optional` exactly for an `Option` type |
| MacroBundle.NewXmlAttributeBundle | macros/src/bundle.rs:313-325 | a bundle field exactly when annotated; annotation errors, then a missing identifier, are reported |
| MacroBundle.GateOf | macros/src/bundle.rs:136-177 | `None` always runs with the field bound; `Optional` runs only for `Some`, with the unwrapped value; `Default` runs when the field equals its default; `Other` when the closure holds |
| MacroBundle.ValueText | macros/src/bundle.rs:78-125 | the value bytes of each policy; `MacroBundle.WriteValue` writes exactly them |
| MacroBundle.WriteValue | macros/src/bundle.rs:78-125 | the key with `="`, the value as the policy writes it, and the closing quote |
| MacroBundle.AttributeToken | macros/src/bundle.rs:78-83 | one `name="value"` token; its parts are stated by `MacroBundle.AttributeTokenParts` |
| MacroBundle.AttributeTokenParts | macros/src/bundle.rs:78-125 | a token reads back by position as the name, `="`, the value and the closing quote |
| MacroBundle.Emitted | macros/src/bundle.rs:78-177 | a block emits a token exactly when its check lets it run |
| MacroBundle.Block | macros/src/bundle.rs:85-123 | a silent block writes nothing and keeps the flag; an emitting one writes `" "` only when the flag was set, then its token, and sets the flag |
| MacroBundle.DefaultCheckRunsOnDefault | macros/src/bundle.rs:162-168 | the `Default` check emits exactly when the field equals its default |
| MacroBundle.LiteralIgnoresValue | macros/src/bundle.rs:108-123 | a `Literal` writes the same fixed token whatever the value |
| MacroBundle.OptionalPassField | macros/src/bundle.rs:86-96 | an optional `Pass` field writes `name="text"` for `Some` and nothing for `None` |
| MacroBundle.WriteBlock | macros/src/bundle.rs:85-123 | the generated block's writes are `Block`'s text, and the flag it leaves is `Block`'s flag |
| MacroLib.FilterMap | macros/src/lib.rs:23 | `filter_map` never yields more elements than it is given |
| MacroLib.FilterMapAppend | macros/src/lib.rs:23 | filtering a concatenation filters each part |
| MacroLib.FilterMapRejects | macros/src/lib.rs:23 | a rejected field contributes nothing |
| MacroLib.FilterMapAll | macros/src/lib.rs:23 | fields that are all accepted filter to their values, in order |
| MacroLib.FilterMapNone | macros/src/lib.rs:57 | fields that are all rejected filter to nothing |
| MacroLib.AttributeEntries | macros/src/lib.rs:23 | at most one attribute entry per field |
| MacroLib.BundleEntries | macros/src/lib.rs:57 | at most one bundle entry per field |
| MacroLib.Expand | macros/src/lib.rs:23-63 | any attribute-field error aborts with all of them combined, before bundle fields; then any bundle-field error; otherwise the attribute descriptors and bundle names, in field order |
| MacroLib.AttribBundle | macros/src/lib.rs:17-21 | structs expand; enums and unions panic |
| MacroLib.SameEntriesSameExpansion | macros/src/lib.rs:23-63 | the expansion depends only on the two filtered entry lists |
| MacroLib.UnannotatedFieldIgnored | macros/src/lib.rs:23-57 | a field with neither annotation changes nothing |
| MacroLib.BundleFieldPositionIrrelevant | macros/src/lib.rs:75-80 | swapping a bundle field with a neighbouring attribute field changes nothing: attribute blocks come first whatever the interleaving |
| MacroLib.SwapEntries | macros/src/lib.rs:23-57 | a rejected element can swap with its neighbour |
| MacroLib.SwapWithin | macros/src/lib.rs:23-57 | such a swap is allowed inside any list |
| MacroLib.Bind | macros/src/lib.rs:74-80 | each block gets its field's value, and each nested block its field's bundle, in generated order |
| MacroLib.AttributesJoined | macros/src/lib.rs:74-81 | attribute blocks write their tokens joined by single spaces, and set the flag exactly when one emits |
| MacroLib.NoTokens | macros/src/bundle.rs:85-123 | no emitting block, no token |
| MacroLib.OneToken | macros/src/bundle.rs:85-123 | exactly one emitting block gives its token only |
| MacroLib.OnlyAttributes | macros/src/lib.rs:74-81 | a struct of attribute fields only writes its tokens joined by single spaces, with no leading or trailing space |
| MacroLib.TokensNonEmpty | macros/src/bundle.rs:78-83 | every token is non-empty |
| MacroLib.JoinNonEmpty | macros/src/lib.rs:74-81 | a join whose first part is non-empty is non-empty |
| MacroLib.NestedFlag | macros/src/bundle.rs:327-335 | after the nested blocks, the flag is set exactly when something was written |
| MacroLib.AttributesOutput | macros/src/lib.rs:74-77 | the attribute blocks, each seeing the flag the previous one left; a false flag means nothing was written |
| MacroLib.NestedOutput | macros/src/lib.rs:74-81 | the nested blocks after the attribute blocks; a false flag means nothing was written |
| MacroLib.BundleOutput | macros/src/lib.rs:65-84 | the text and flag of `write_attributes`; a false flag means nothing was written |
| MacroLib.BundleFlag | macros/src/lib.rs:74-81 | `write_attributes` returns true exactly when it wrote something, which is exactly when some block emitted |
| MacroLib.SilentWritesNothing | macros/src/lib.rs:74-81 | a struct in which nothing emits writes nothing and returns false |
| MacroLib.SeparatorBeforeSilentBundle | macros/src/bundle.rs:327-335 | a separator is written before a nested bundle even when that bundle writes nothing |
| MacroLib.AttributesComeFirst | macros/src/lib.rs:75-80 | the attribute blocks' output is a prefix of the whole output |
| MacroLib.NestedAfterAttributes | macros/src/bundle.rs:327-335 | once an attribute was written, each nested bundle follows one separator |
| MacroLib.ThreeNestedAfterAttributes | macros/src/lib.rs:75-80 | three nested bundles after an attribute: one separator before each |
| MacroLib.WriteNestedBlock | macros/src/bundle.rs:327-335 | the block writes `" "` when the flag was set, then the nested bundle, and ORs its result into the flag |
| MacroLib.WriteBlocks | macros/src/lib.rs:74-77 | the attribute blocks, from a false flag, append `AttributesOutput` and return its flag |
| MacroLib.WriteDerived | macros/src/lib.rs:74-81 | the attribute blocks and then every nested block append `NestedOutput` and return its flag |
| MacroLib.WriteAttributes | macros/src/lib.rs:65-84 | the generated method starts from false, writes `BundleOutput` and returns its flag |
| PathElement.DocIsSkipped | macros/src/bundle.rs:13-36 | a doc comment in front of the annotation is skipped |
| PathElement.AnnotatedField | macros/src/bundle.rs:207-300 | an annotated field whose policies all select gives that descriptor and no bundle |
| PathElement.PlainField | macros/src/bundle.rs:207-300 | a plain `#[xml_attribute]` field is `Pass` under its name, `Optional` exactly for `Option` types |
| PathElement.BundleField | macros/src/bundle.rs:313-325 | `#[xml_attribute_bundle]` gives a nested block under the field's name and no attribute block |
| PathElement.Oks | macros/src/util.rs:13-15 | every value wrapped in `Ok` |
| PathElement.FlattenOks | macros/src/util.rs:13-15 | only `Ok`s flatten to their values |
| PathElement.ExpandOks | macros/src/lib.rs:23-63 | entries that are all `Ok` expand to their values |
| PathElement.FilterMapAround | macros/src/lib.rs:23-57 | accepted elements before or after rejected ones filter to the accepted values |
| PathElement.SplitExpansion | macros/src/lib.rs:23-63 | attribute fields and bundle fields expand the same in either order |
| PathElement.CoreExpansion | src/common.rs:246-324 | `CoreAttributes` expands to the blocks of `id`, `tabindex`, `xml:lang`, `xml:space`, `class` and `style`, then the `data` and `other` bundles |
| PathElement.CoreBundle | src/common.rs:246-324 | the `CoreAttributes` bundle with each field bound to its block; `PathElement.CoreAttributeField` and `PathElement.XmlSpacePolicy` state the blocks |
| PathElement.ConditionalBundle | src/common.rs:415-444 | the `ConditionalProcessing` bundle with each list bound to its block |
| PathElement.EventsBundle | src/script.rs:15-44 | the `GraphicalEvents` bundle with each handler bound to its block; `PathElement.EventsExpansion` states the blocks |
| PathElement.CoreAttributeField | src/common.rs:246-305 | each attribute field of `CoreAttributes` gives its descriptor |
| PathElement.IdPolicy | src/common.rs:249-252 | `id` is optional and transformed, under its own name |
| PathElement.TabindexPolicy | src/common.rs:259-263 | `tabindex` is optional and transformed, under its own name |
| PathElement.TransformField | macros/src/bundle.rs:220-222 | a `transform` on an `Option` field is optional, transformed, under the field's name |
| PathElement.XmlLangPolicy | src/common.rs:269-273 | `xml_lang` is renamed to `xml:lang`, optional and transformed |
| PathElement.XmlSpacePolicy | src/common.rs:282-288 | `xml_space` is renamed to `xml:space`, with the `Default` check and the literal `preserve` |
| PathElement.RenamedPolicy | src/common.rs:423-443 | a renamed `Option` field is optional and `Pass`, under the given name |
| PathElement.ConditionalExpansion | src/common.rs:415-444 | `ConditionalProcessing` expands to three optional blocks under their camel-case names, and no bundles |
| PathElement.EventFields | src/script.rs:15-44 | nine plain `Option<Cow<str>>` handler fields |
| PathElement.EventsGenerated | src/script.rs:15-44 | one optional block per handler, and no bundles |
| PathElement.EventsExpansion | src/script.rs:15-44 | `GraphicalEvents` expands to nine optional blocks under the handler names |
| PathElement.ElementPathExpansion | src/path.rs:261-288 | `ElementPath` expands to the `d` and `path_length` blocks, then the three nested bundles, although the bundles are declared first |
| PathElement.DefaultEvents | src/script.rs:15-44 | by default no handler is set |
| PathElement.EventValues | src/script.rs:15-44 | every handler name maps to its field value |
| PathElement.ElementPathText | src/path.rs:290-302 | `<path `, the attribute bundle, `/>`; `PathElement.DComesFirst` and `PathElement.WriteElementPath` are stated through it |
| PathElement.WriteElementPath | src/path.rs:290-302 | the sink grows by `<path `, the attribute bundle, `/>` |
| PathElement.AbsentOptionalsWriteNothing | macros/src/bundle.rs:155-161 | a struct of optional blocks, all `None`, writes nothing and returns false |
| PathElement.DefaultConditionalWritesNothing | src/common.rs:415-444 | a default `ConditionalProcessing` writes nothing |
| PathElement.DefaultEventsWriteNothing | src/script.rs:15-44 | a default `GraphicalEvents` writes nothing |
| PathElement.OnlyXmlSpaceBlock | src/common.rs:282-288 | with only `xml_space` set, the single token is `xml:space="preserve"` when the field is at its default, else none |
| PathElement.DerivedSpaceDefault | src/common.rs:167-171 | the `Default` check on `xml_space` follows the derived `Default`: `Default` is the default value and `Preserve` is not |
| PathElement.DefaultCoreWritesXmlSpace | src/common.rs:282-288 | a default `CoreAttributes` writes `xml:space="preserve"` and two separators for its silent nested bundles |
| MacroLib.SeparatedTwo | macros/src/bundle.rs:327-335 | two nested bundles after the flag is set: one separator before each |
| PathElement.PreservedSpaceWritesNothing | macros/src/bundle.rs:162-168 | `xml_space` set to `Preserve`, which is not the default, writes nothing |
| PathElement.DBlock | src/path.rs:279-280 | the first block of a path with `d` set writes the `d` token with no separator before it |
| PathElement.DAttributes | src/path.rs:279-287 | with `d` set, its token comes first, and it is all when `path_length` is absent |
| PathElement.DComesFirst | src/path.rs:290-302 | a path with `d` set writes `<path d="..."` before anything of its nested bundles |
| MacroLib.SeparatedThree | macros/src/bundle.rs:327-335 | three nested bundles after the flag is set: one separator before each |
| PathElement.ElementPathBundle | src/path.rs:261-288 | the `ElementPath` bundle: `d` and `path_length` bound to their blocks, and the three nested bundles; `PathElement.ElementPathNested` states their order |
| PathElement.ElementPathNested | src/path.rs:261-273 | the nested bundles come in declaration order |
| PathElement.ElementPathAfterAttributes | src/path.rs:261-302 | once an attribute is written, the element is `<path `, the attributes, each nested bundle after one separator, and `/>` |
| PathElement.PathWithOnlyD | src/path.rs:261-302 | a path with only `d` set writes `<path d="..."`, the spaces of the three nested bundles around the `xml:space` token, and `/>` |
| PathElement.Spacing | src/path.rs:297-299 | the separators of a path with only `d`, counted |
| ScraperMain.SplitDocsLink | spec-scraper/src/main.rs:17 | every link starts with the SVG 1.1 base path |
| ScraperMain.SplitDocsLinkDefined | spec-scraper/src/main.rs:128-131 | a link exists exactly when the section is non-empty and a `-` follows its first character |
| ScraperMain.SplitDocsLinkChapterAnchor | spec-scraper/src/main.rs:128-131 | a section `<c><chapter>-<anchor>` links to `<chapter>.html#<anchor>` under the base path |
| ScraperMain.SplitDocsLinkDropsRest | spec-scraper/src/main.rs:128-131 | text after a second `-` is discarded |
| ScraperElement.AsciiUpper | spec-scraper/src/element.rs:24-27 | `a` to `z` become `A` to `Z`; everything else stays |
| ScraperElement.Capitalize | spec-scraper/src/element.rs:22-29 | same length, first character uppercased, the rest unchanged |
| ScraperElement.Capitals | spec-scraper/src/element.rs:20-30 | every segment capitalized, in order |
| ScraperElement.CapitalizedJoin | spec-scraper/src/element.rs:20-31 | succeeds exactly when no segment is empty |
| ScraperElement.CamelCaseRun | spec-scraper/src/element.rs:28 | inside a segment nothing is uppercased |
| ScraperElement.CamelCaseSegment | spec-scraper/src/element.rs:22-29 | a segment followed by more text is capitalized once |
| ScraperElement.CamelCaseJoin | spec-scraper/src/element.rs:20-31 | capitalizing and joining agrees with the character-by-character reading |
| ScraperElement.CapitalizedJoinIsCamelCase | spec-scraper/src/element.rs:20-31 | any name produced is the character-by-character reading of the input |
| ScraperElement.CapitalizedJoinOfPieces | spec-scraper/src/element.rs:20-31 | segments joined by the separator give their capitalized concatenation |
| ScraperElement.CamelCaseDropsSeparator | spec-scraper/src/element.rs:20-31 | no separator survives |
| ScraperElement.CamelCaseLength | spec-scraper/src/element.rs:20-31 | the output loses exactly the separators |
| ScraperElement.ElRustName | spec-scraper/src/element.rs:19-33 | `Element` followed by the capitalized join, defined exactly when that is |
| ScraperElement.ElRustNameSpelling | spec-scraper/src/element.rs:19-33 | the name is `Element` and the dash-free camel case of the input, 7 characters longer than the input without dashes |
| ScraperElement.ElRustNameEmptySegment | spec-scraper/src/element.rs:22-29 | an empty name, a leading dash or a doubled dash panics |
| ScraperElement.ElRustNameTwoSegments | spec-scraper/src/element.rs:19-33 | `a-b` gives `Element` with `a` and `b` capitalized, as `font-face` gives `ElementFontFace` |
| ScraperElement.Unquote | spec-scraper/src/element.rs:35-38 | defined exactly for two or more characters: the text without its first and last, two shorter |
| ScraperElement.UnquoteQuoted | spec-scraper/src/element.rs:66-67 | unquoting undoes quoting with any pair of characters |
| ScraperElement.SplitOnce | spec-scraper/src/element.rs:52-56 | defined exactly when the delimiter occurs; the parts rebuild the text and the first holds no delimiter |
| ScraperElement.ElementModule | spec-scraper/src/element.rs:52-56 | the section's prefix before its first `-`; defined exactly when a `-` occurs |
| ScraperElement.ElementInfo | spec-scraper/src/element.rs:45-77 | defined exactly when module, unquoting and Rust name all succeed; the section is kept, the tag name is the unquoted link text and names the Rust type |
| ScraperAttribute.NormalizeAttributeValue | spec-scraper/src/attribute.rs:23-25 | single-spaced, no leading or trailing whitespace, the same words in order |
| ScraperAttribute.NormalizeIdempotent | spec-scraper/src/attribute.rs:23-25 | normalising twice is normalising once |
| ScraperAttribute.NormalizeJoinedWords | spec-scraper/src/attribute.rs:23-25 | words already joined by single spaces are kept |
| ScraperAttribute.BundleStructName | spec-scraper/src/attribute.rs:223-235 | succeeds exactly when no space-separated word is empty |
| ScraperAttribute.BundleStructNameSpelling | spec-scraper/src/attribute.rs:223-235 | the name is the camel case of the words: spaces removed, each word's first character uppercased |
| ScraperAttribute.BundleStructNameThreeWords | spec-scraper/src/attribute.rs:223-235 | three words give their capitalized concatenation |
| ScraperAttribute.BundleStructNameEmpty | spec-scraper/src/attribute.rs:227 | an empty name panics |
| ScraperAttribute.GroupNames | spec-scraper/src/attribute.rs:244 | the names of the groups, in order |
| ScraperAttribute.BundleNames | spec-scraper/src/attribute.rs:286 | the bundle names of the groups, in order |
| ScraperAttribute.FirstIndex | spec-scraper/src/attribute.rs:244 | the position of the first occurrence; `None` exactly when absent |
| ScraperAttribute.FirstIndexAppend | spec-scraper/src/attribute.rs:244-264 | appending keeps an earlier key at its place |
| ScraperAttribute.FirstIndexUnique | spec-scraper/src/attribute.rs:244 | the first occurrence is the one with none before it |
| ScraperAttribute.LookupOrInsert | spec-scraper/src/attribute.rs:238-266 | a cached group of that name is returned and the registry is unchanged; otherwise one group is appended with the bundle name and docs link of the text, or the lookup panics |
| ScraperAttribute.LookupOrInsertTwice | spec-scraper/src/attribute.rs:244-246 | asking again returns the same group and changes nothing |
| ScraperAttribute.LookupOrInsertKeepsNamesUnique | spec-scraper/src/attribute.rs:238-266 | the registry never holds two groups of the same name |
| ScraperAttribute.Registry.constructor | spec-scraper/src/attribute.rs:218-221 | the registry starts empty |
| ScraperAttribute.Registry.FromLinkAndAttributes | spec-scraper/src/attribute.rs:238-266 | the search loop and the push give `LookupOrInsert` of the old registry |
| ScraperAttribute.Serialize | spec-scraper/src/attribute.rs:279-291 | the bundle names joined by `,`: with comma-free names, splitting gives the names back in order |
| ScraperAttribute.FindBundle | spec-scraper/src/attribute.rs:303-306 | the first registry group with the bundle name (no earlier group has it); `None` exactly when no group has it |
| ScraperAttribute.Found | spec-scraper/src/attribute.rs:300-308 | the found groups never outnumber the names, and are as many exactly when every name is found, each the first match |
| ScraperAttribute.Deserialize | spec-scraper/src/attribute.rs:293-315 | `Ok` exactly when every comma-separated name is found, with the first match for each name in order; otherwise the cache-miss error |
| ScraperAttribute.DeserializeSerialize | spec-scraper/src/attribute.rs:279-315 | serialising groups with non-empty, comma-free, first-match bundle names and deserialising gives them back |
| ScraperAttribute.EmptyListRoundTrip | spec-scraper/src/attribute.rs:283-313 | an empty list serialises to `""`, which deserialises to an error unless a group has an empty bundle name |

## Left out

- Rust float formatting (`{:.prec$}`) is not interpreted. Numbers are 32-bit patterns, and every writer takes the formatter as a parameter. `Path.SegmentFields` assumes the formatter writes no space.
- Math.PositiveNumberText: `PositiveNumber::new`'s float checks (NaN, infinity, sign bit, which rejects `-0.0`) and its ordering are floating point. A positive number is kept as given, and its text is the formatter's output.
- Write errors and the byte counts of `writer.write` (partial writes) are left out. The sink is an infallible append.
- syn and quote token handling (spans, `parse_quote!`, generics reconstruction) is left out. The macro is modelled over abstract descriptors and one-token expressions. Parse-error wording for malformed token streams is the model's own.
- `Check::wrapped` binds the field's name as a local; only the value it binds is modelled. A `Pass` under `Default` or a closure check binds nothing usable, so the generated code would not compile; the model writes an empty value there.
- A `Pass` value whose type has no `Writable` form (an integer, say) writes the empty text in the model; the real expansion does not compile.
- `enum` and `union` inputs to the derive hit `todo!()`; this is `None` in the model.
- `cfg(feature = ...)` switches are all taken as on.
- `DelimitedValues::remove` cuts single bytes (`start -= 1`, `end += 1`), and the scraper indexes `as_bytes()[0]`. Delimiters and first characters are taken to be ASCII, so a byte is a character.
- ScraperElement.Unquote: `name_len - 2` underflows below two characters. A debug build panics, which is `None` here. A release build wraps, which is not modelled.
- The scraper's HTML fetching, DOM traversal, `unwrap_link`, `AttributeInterface::from_spanned_link`, `AttributeValue::scrape` and `SummaryInfo` are left out (network, filesystem, serde, logging). The link text, target and scraped attributes are inputs.
- `Rc` sharing of registry groups is modelled by value. The global `static mut GROUPS` is the `Registry` object.
- `GraphicalEvents` (src/script.rs) is modelled by its nine handler fields as a sequence and a name map.
- `pop` on a single entry: the model returns `None` and keeps the entry, as the code does; it never returns that only entry.
- The `path_length` field of `ElementPath` has no `name` override, so it is written under the attribute name `path_length`, as the code does.
- src/lib.rs (the module list and `Sealed`), src/error.rs and the empty `Unit` enum declare nothing that runs.
