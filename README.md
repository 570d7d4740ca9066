# fern-kt in Dafny

This project models the core of fern-kt. Fern is a small text format for configuration documents, built from these pieces:

- **Leaves:** unquoted text such as `abc`, or quoted text such as `"a b"`. Inside quotes, `|` escapes the next code point.
- **Lists:** written `[ ... ]`, with items separated by whitespace.
- **Structs:** written `( name = value ... )`.

The Kotlin repository decodes such a document into a tree of nodes. It gives each node an anchor, which is the region of the text it came from, and it offers typed accessors that return either a value or an error carrying the path of the failed lookup.

The model covers five areas:

- **Text positions and regions** (`Text`) and their printed forms. Integers print in decimal (`Decimal`).
- **Paths and steps** (`Paths`) and how they print.
- **Code point classification:**
  - `CodePoints` is the nine-category classifier of the position-aware decoder.
  - `LegacyCodePoints` is the earlier four-category classifier.
- **Node trees:**
  - `Nodes` is the anchored tree of the `types` module, with its accessors, path lookup, structural equality and printed form.
  - `LegacyNodes` is the older tree of the `node` module.
  - `Config` is the configuration tree of the `config` module.
- **Decoders:**
  - `StandardDecoder` is the position-aware decoder: a step function over a stack of open containers, a fold over the text, and a driver loop (`Parse`) proved equal to the fold.
  - `StandardDecoderProperties` proves its invariants and error behaviour.
  - `StandardDecoderExamples` proves the outcome of documents from its test suite, one code point at a time.
  - `LegacyDecoder` is the first-generation decoder without positions, in two dialects: with quoted leaves (`Decoder.kt`) and without (`ParserMachine.kt`).
  - `LegacyDecoderProperties` proves that every document the legacy decoder accepts is accepted by the position-aware decoder with the same tree, once anchors are erased. It also proves where the two decoders and the two dialects part ways.

The Kotlin parser states are objects that hand finished nodes to their parents and update buffers in place. Here they are a value: a stack of frames, one per open container, with at most one leaf being read on top. A failed state is absorbing. The driver that feeds code points one at a time is the `while` loop of `StandardDecoder.Parse` and `LegacyDecoder.LegacyParse`.

Where the code and its documentation disagree, the model follows the code:

- A document is accepted when control has returned to the root after the last code point. An empty or blank document decodes to the null node, and a later top-level value replaces an earlier one (`RootState.kt`, `push(node)`).
- In the old `node` module, `Node.kt` builds `UndefinedValue(key)` and `InvalidIndex(index)` from a key or an index, while `NodeError.kt` in the same module declares path-carrying errors. `LegacyNodes` follows the constructors as `Node.kt` calls them.

## Model

| member | source | states |
|---|---|---|
| Decimal.ParseInteger | types/src/main/kotlin/com/github/rimasu/node/types/Node.kt:95-102 | a number is returned exactly when the text is an optional sign followed by one or more decimal digits and its value lies inside the target type's range, and the number returned is that value |
| Decimal.LeadingZeroIgnored | types/src/main/kotlin/com/github/rimasu/node/types/Node.kt:95-102 | a leading zero after the optional sign changes nothing: `0`+s, `-0`+s and `+0`+s parse as s, `-`+s and s |
| Decimal.ParseExamples | types/src/main/kotlin/com/github/rimasu/node/types/Node.kt:95-102 | `+5` reads as 5, `007` as 7 and `-0` as 0; the empty text, a lone `-` and `1a` are rejected |
| Decimal.IntRangeEdges | types/src/main/kotlin/com/github/rimasu/node/types/Node.kt:95-102 | `-2147483648` is the smallest `Int`, `2147483648` is out of the `Int` range and inside the `Long` range |
| Decimal.IntToString | types/src/main/kotlin/com/github/rimasu/node/types/Node.kt:70 | the decimal text of an integer is non-empty digits, with a leading minus sign exactly for negative numbers |
| Decimal.NatToStringValue | types/src/main/kotlin/com/github/rimasu/node/types/Node.kt:70 | the digits printed for a natural number read back as that number |
| Decimal.ParseIntToString | types/src/main/kotlin/com/github/rimasu/node/types/Node.kt:68-70 | printing an in-range integer and parsing it back gives the integer (`Int.asNode` followed by `asInt`) |
| Decimal.IntToStringInjective | types/src/main/kotlin/com/github/rimasu/node/types/Step.kt:19-22 | two integers with the same decimal text are equal |
| Text.MakePosition | types/src/main/kotlin/com/github/rimasu/text/Position.kt:26-35 | a position is created exactly when line and column are both greater than zero, and then keeps them |
| Text.MakeAnchor | types/src/main/kotlin/com/github/rimasu/node/types/Anchor.kt:26-51 | an anchor is created exactly when all the constructor's `require` checks hold (start line and position positive; end not before start; end position positive on a later line) |
| Text.AnchorChecksAreValidRegion | types/src/main/kotlin/com/github/rimasu/node/types/Anchor.kt:41-50 | the anchor checks hold exactly when the anchor spans a valid region (positive positions, end not before start) |
| Text.AnchorPrintsAsRegion | types/src/main/kotlin/com/github/rimasu/node/types/Anchor.kt:52-62 | an anchor prints exactly as the region between its start and end positions |
| Text.PrintedExamples | types/src/main/kotlin/com/github/rimasu/text/Region.kt:11-15 | positions print as `line,column`; a region prints as its start alone, or as `start->column` on one line, or as `start->line,column` across lines |
| Text.PositionToStringInjective | types/src/main/kotlin/com/github/rimasu/text/Position.kt:37 | two positions with the same printed form are equal |
| Text.RegionToStringInjective | types/src/main/kotlin/com/github/rimasu/text/Region.kt:11-15 | two regions with the same printed form are equal, so the three printed shapes never collide |
| Paths.StepToString | types/src/main/kotlin/com/github/rimasu/node/types/Step.kt:11-22 | a label step prints as `/` and the label, and an index step as `#` and the decimal index |
| Paths.StepToStringInjective | types/src/main/kotlin/com/github/rimasu/node/types/Step.kt:11-22 | two steps with the same printed form are equal |
| Paths.Plus | node/src/main/kotlin/org/rimasu/node/Path.kt:14 | extending a path keeps every earlier step and adds exactly the new step at the end |
| Paths.StepsTextAppend | node/src/main/kotlin/org/rimasu/node/Path.kt:8-12 | the printed steps of a path extended by one step are the old text followed by that step's text |
| Paths.PlusPrints | node/src/main/kotlin/org/rimasu/node/Path.kt:8-14 | the printed form of `p + s` is `{`, the steps of `p`, the step `s`, then `}` |
| Paths.PathPrintShape | node/src/main/kotlin/org/rimasu/node/Path.kt:8-12 | every printed path is wrapped in braces, and it is `{}` exactly for the root path |
| Paths.PathPrintExample | node/src/main/kotlin/org/rimasu/node/Path.kt:8-12 | the path of label `a` then index 3 prints as `{/a#3}` |
| CodePoints.Classify | standard-decoder/src/main/kotlin/com/github/rimasu/fern/decoder/CodePointType.kt:57-72 | a code point is whitespace exactly when the whitespace test holds, and a punctuation category is given only to that category's own code point |
| CodePoints.ClassifiedPunctuation | standard-decoder/src/main/kotlin/com/github/rimasu/fern/decoder/CodePointType.kt:57-72 | a code point is classified as punctuation exactly when it is not whitespace and is one of the seven special code points |
| CodePoints.PunctuationInverse | standard-decoder/src/main/kotlin/com/github/rimasu/fern/decoder/CodePointType.kt:48-68 | each punctuation category is the class of exactly one code point, its constant |
| CodePoints.ClassifiedExamples | standard-decoder/src/main/kotlin/com/github/rimasu/fern/decoder/CodePointType.kt:57-70 | space, tab, line feed, vertical tab, form feed, carriage return and the four separators 0x1C–0x1F are whitespace; letters and the last code point are normal |
| LegacyCodePoints.Classify | src/main/kotlin/com/github/rimasu/node/decoder/CodePointType.kt:22-32 | only the two parentheses are punctuation, and whitespace is exactly space, tab, line feed and carriage return |
| LegacyCodePoints.RefinedByStandard | src/main/kotlin/com/github/rimasu/node/decoder/CodePointType.kt:3-32 | the standard classifier refines the old one: parentheses agree in both directions and old whitespace stays whitespace; vertical tab, `[` and `"` are examples of old normals that the standard classifier treats differently |
| Nodes.Put | types/src/main/kotlin/com/github/rimasu/node/types/Node.kt:110-112 | storing a field sets that key, keeps every other key, and keeps the first-insertion order of labels |
| Nodes.LookupAppend | types/src/main/kotlin/com/github/rimasu/node/types/Node.kt:118-125 | looking up a path extended by one step is the one-step lookup from the node the path reached |
| Nodes.AsString | types/src/main/kotlin/com/github/rimasu/node/types/Node.kt:87-93 | a string is returned exactly for a leaf, and is the leaf's text; otherwise an incompatible-value error at the given path and the node's anchor |
| Nodes.AsStruct | types/src/main/kotlin/com/github/rimasu/node/types/Node.kt:127 | succeeds exactly on a struct node and returns it; otherwise an incompatible-value error |
| Nodes.AsList | types/src/main/kotlin/com/github/rimasu/node/types/Node.kt:173 | succeeds exactly on a list node and returns it; otherwise an incompatible-value error |
| Nodes.AsInteger | types/src/main/kotlin/com/github/rimasu/node/types/Node.kt:95-102 | succeeds exactly on a leaf whose text parses within the type's range and meets the bounds. Text that does not parse, or a node that is not a leaf, is an incompatible value; a parsed value below `min` is a low-value error and one above `max` a high-value error; every error carries the path and anchor |
| Nodes.IntNodeRoundTrip | types/src/main/kotlin/com/github/rimasu/node/types/Node.kt:70 | a node made from an `Int` reads back the same number as `Int` and as `Long` |
| Nodes.BoundedIntOutcome | types/src/test/kotlin/com/github/rimasu/node/types/LeafNodeTest.kt:75-96 | with bounds, a node made from an `Int` succeeds exactly inside the bounds, and fails low exactly below `min` and high exactly above `max` |
| Nodes.StructGet | types/src/main/kotlin/com/github/rimasu/node/types/Node.kt:118-125 | a label is found exactly when the struct has it, and the found node is that child; a missing label is an undefined-value error at the path extended by the label |
| Nodes.ListGet | types/src/main/kotlin/com/github/rimasu/node/types/Node.kt:163-169 | an index is found exactly when it is between 1 and the size, giving the item at that index minus one; otherwise an undefined-value error at the path extended by the index |
| Nodes.ChildPath | types/src/main/kotlin/com/github/rimasu/node/types/Node.kt:49-65 | the path of a child fetched from a node at path `p` is `p` plus the step used, so the lookup of that path from the root reaches the child |
| Nodes.StepInto | types/src/main/kotlin/com/github/rimasu/node/types/Node.kt:118-169 | one step of navigation succeeds exactly when the child exists, and its error path is the current path or the current path plus that step |
| Nodes.ReachedIsFirstMiss | types/src/main/kotlin/com/github/rimasu/node/types/Node.kt:118-169 | when a lookup fails, the reached prefix resolves and one more step does not |
| Nodes.FollowMatchesLookup | types/src/main/kotlin/com/github/rimasu/node/types/Node.kt:118-169 | following a path with the accessors succeeds exactly when the plain lookup does, with the same node |
| Nodes.FollowErrorPath | types/src/main/kotlin/com/github/rimasu/node/types/Node.kt:49-59 | a failed navigation reports the starting path extended by the steps up to the first missing one |
| Nodes.SameReflexive | types/src/main/kotlin/com/github/rimasu/node/types/Node.kt:139-146 | node equality, which ignores anchors, is reflexive |
| Nodes.SameSymmetric | types/src/main/kotlin/com/github/rimasu/node/types/Node.kt:139-146 | node equality is symmetric |
| Nodes.SameTransitive | types/src/main/kotlin/com/github/rimasu/node/types/Node.kt:183-190 | node equality is transitive |
| Nodes.NodeToString | types/src/main/kotlin/com/github/rimasu/node/types/Node.kt:75-181 | null prints as `_`, a leaf as its raw data, a struct as its fields between `{` and `}` and a list as its items between `[` and `]` |
| Nodes.LeafData | types/src/main/kotlin/com/github/rimasu/node/types/Node.kt:104 | one string per leaf, its data, in item order |
| Nodes.ItemsTextSnoc | types/src/main/kotlin/com/github/rimasu/node/types/Node.kt:175-181 | one more item adds a single space and that item's printed form to the list text |
| Nodes.LeafListPrints | types/src/main/kotlin/com/github/rimasu/node/types/Node.kt:175-181 | any list of leaves prints as the leaves' data separated by single spaces, between brackets |
| Nodes.PrintListExample | types/src/main/kotlin/com/github/rimasu/node/types/Node.kt:175-181 | a list of leaves `a`, `b`, `c` prints as `[a b c]` |
| Nodes.PrintStructExample | types/src/main/kotlin/com/github/rimasu/node/types/Node.kt:129-137 | a struct with fields `a`, `b`, `c` prints as `{a=a b=b c=c}` in insertion order |
| LegacyNodes.AsString | node/src/main/kotlin/org/rimasu/node/Node.kt:54-60 | a string is returned exactly for a leaf, and is its text; otherwise an incompatible-value error |
| LegacyNodes.AsInt | node/src/main/kotlin/org/rimasu/node/Node.kt:62-69 | succeeds exactly on a leaf whose text parses as a 32-bit integer, giving that integer |
| LegacyNodes.AsStruct | node/src/main/kotlin/org/rimasu/node/Node.kt:94 | succeeds exactly on a struct node and returns it |
| LegacyNodes.AsList | node/src/main/kotlin/org/rimasu/node/Node.kt:119 | succeeds exactly on a list node and returns it |
| LegacyNodes.IntNodeRoundTrip | node/src/main/kotlin/org/rimasu/node/Node.kt:45-69 | a node made from an `Int` reads back that number, and its text is the number's decimal form |
| LegacyNodes.StructGet | node/src/main/kotlin/org/rimasu/node/Node.kt:85-92 | a key is found exactly when present, giving its node; a missing key is an undefined-value error naming that key |
| LegacyNodes.ListGet | node/src/main/kotlin/org/rimasu/node/Node.kt:109-115 | an index is found exactly when it is between 1 and the size; otherwise an invalid-index error naming that index |
| LegacyNodes.LookupAppend | node/src/main/kotlin/org/rimasu/node/Node.kt:27-36 | looking up a path extended by one step is the one-step lookup from the node the path reached |
| LegacyNodes.ChildrenPaths | node/src/main/kotlin/org/rimasu/node/Node.kt:77-104 | every item of a list at path `p` is reached at `p#i` (counting from one), and every field of a struct at `p/k` |
| Config.AsString | config/src/main/kotlin/org/rimasu/config/Config.kt:32-38 | a string is returned exactly for a plain value, and is its text; otherwise an incompatible-value error |
| Config.AsInt | config/src/main/kotlin/org/rimasu/config/Config.kt:40-47 | succeeds exactly on a plain value whose text parses as a 32-bit integer |
| Config.AsStruct | config/src/main/kotlin/org/rimasu/config/Config.kt:70 | succeeds exactly on a struct configuration |
| Config.AsList | config/src/main/kotlin/org/rimasu/config/Config.kt:93 | succeeds exactly on a list configuration |
| Config.FromIntRoundTrip | config/src/main/kotlin/org/rimasu/config/Config.kt:25-47 | a configuration value made from an `Int` reads back that number |
| Config.StructGet | config/src/main/kotlin/org/rimasu/config/Config.kt:61-68 | a key is found exactly when present; a missing key is an undefined-value error naming it |
| Config.ListGet | config/src/main/kotlin/org/rimasu/config/Config.kt:83-89 | an index is found exactly when it is between 1 and the size; otherwise an invalid-index error naming it |
| Config.ListGetEnumerates | config/src/main/kotlin/org/rimasu/config/Config.kt:83-89 | every index from 1 to the size gives the matching item, and 0 and size + 1 are rejected |
| StandardDecoder.Deliver | standard-decoder/src/main/kotlin/com/github/rimasu/fern/decoder/StructNodeState.kt:45-47 | an open struct stores the finished node under the pending field name (a new name goes last), clears the name and waits for the next field; an open list appends it to its items (`ListNodeState.kt`, line 40 of the `src/main` decoder); with no container open it becomes the document value (`RootState.kt`, lines 48-50). The containers below the innermost are untouched |
| StandardDecoder.Advance | standard-decoder/src/test/kotlin/com/github/rimasu/node/decoder/DecoderTest.kt:69-87 | the cursor never moves to an earlier line; a line feed moves it to column 0 of the next line, and any other code point one column right on the same line |
| StandardDecoder.Parse | src/main/kotlin/com/github/rimasu/node/decoder/Decoder.kt:31-43 | the driver loop, which classifies each code point and pushes it into the current state, returns exactly the outcome of the decoding fold |
| StandardDecoderProperties.WhitespaceNeverFails | standard-decoder/src/main/kotlin/com/github/rimasu/fern/decoder/StructNodeState.kt:49-128 | whitespace is accepted in every state |
| StandardDecoderProperties.FailureIsSyntaxErrorHere | standard-decoder/src/main/kotlin/com/github/rimasu/fern/decoder/RootState.kt:36-46 | a push that fails reports a syntax error at the position of that code point, which is never whitespace |
| StandardDecoderProperties.StepKeepsInv | standard-decoder/src/main/kotlin/com/github/rimasu/fern/decoder/StructNodeState.kt:49-128 | one push keeps the decoder invariant: nodes carry valid anchors, open containers start no later than the cursor, and struct labels list exactly the stored keys |
| StandardDecoderProperties.RunKeepsInv | src/main/kotlin/com/github/rimasu/node/decoder/Decoder.kt:31-43 | the invariant holds after any text |
| StandardDecoderProperties.DecodeIsWellFormed | src/main/kotlin/com/github/rimasu/node/decoder/Decoder.kt:31-43 | a decoded tree has valid anchors everywhere and ordered struct labels, and an error is reported at a valid position |
| StandardDecoderProperties.RunSnoc | src/main/kotlin/com/github/rimasu/node/decoder/Decoder.kt:33-36 | decoding text plus one code point is one more push after decoding the text |
| StandardDecoderProperties.StepEndsUnquoted | standard-decoder/src/main/kotlin/com/github/rimasu/node/decoder/LeafNodeState.kt:41-55 | a code point that is not normal ends an unquoted leaf, hands it to its container with its region, and is then pushed into that container |
| StandardDecoderProperties.QuotedAppends | standard-decoder/src/main/kotlin/com/github/rimasu/fern/decoder/QuotedLeafNodeState.kt:48 | inside a quoted leaf, a code point other than a quote or a pipe is appended to the text and the leaf stays open |
| StandardDecoderProperties.EscapeStarts | standard-decoder/src/main/kotlin/com/github/rimasu/fern/decoder/QuotedLeafNodeState.kt:47 | inside a quoted leaf, the pipe is not kept and makes the next code point literal |
| StandardDecoderProperties.EscapedIsLiteral | standard-decoder/src/main/kotlin/com/github/rimasu/fern/decoder/QuotedLeafNodeState.kt:51-57 | after the escape, any code point, even a quote, is appended to the leaf text and the escape is cleared |
| StandardDecoderProperties.QuoteClosesLeaf | standard-decoder/src/main/kotlin/com/github/rimasu/fern/decoder/QuotedLeafNodeState.kt:42-46 | an unescaped quote hands the text read so far to the container as a leaf anchored from the opening quote to this one |
| StandardDecoderProperties.QuotedCharRead | standard-decoder/src/main/kotlin/com/github/rimasu/fern/decoder/QuotedLeafNodeState.kt:40-57 | inside a quoted leaf, the escaped form of one code point appends exactly that code point |
| StandardDecoderProperties.QuotedTextRead | standard-decoder/src/main/kotlin/com/github/rimasu/fern/decoder/QuotedLeafNodeState.kt:40-57 | inside a quoted leaf, the escaped form of any text appends exactly that text, and the leaf stays open |
| StandardDecoderProperties.QuotedLeafClosed | standard-decoder/src/main/kotlin/com/github/rimasu/fern/decoder/QuotedLeafNodeState.kt:42-46 | after an escaped text and its closing quote, the list holds one leaf with exactly that text, anchored from quote to quote |
| StandardDecoderProperties.QuotedLeafRoundTrip | standard-decoder/src/main/kotlin/com/github/rimasu/fern/decoder/QuotedLeafNodeState.kt:40-57 | any text, escaped and quoted as the only item of a list, decodes to a one-item list whose leaf holds exactly that text, anchored from quote to quote |
| StandardDecoderProperties.FailedAbsorbs | src/main/kotlin/com/github/rimasu/node/decoder/Decoder.kt:55-59 | once failed, the decoder stays failed whatever follows, with the first error |
| StandardDecoderProperties.BlankDecodesToNull | standard-decoder/src/main/kotlin/com/github/rimasu/fern/decoder/RootState.kt:34-40 | a blank document decodes to the null node |
| StandardDecoderProperties.ContainerAccepts | standard-decoder/src/main/kotlin/com/github/rimasu/fern/decoder/StructNodeState.kt:49-128 | a container accepts a code point exactly when its class is in the expected list for the current state |
| StandardDecoderProperties.ContainerRejects | standard-decoder/src/main/kotlin/com/github/rimasu/fern/decoder/StructNodeState.kt:49-128 | a rejection reports exactly the expected list of the current state |
| StandardDecoderProperties.ExpectedIsExact | standard-decoder/src/main/kotlin/com/github/rimasu/fern/decoder/RootState.kt:36-46 | the expected types in an error are exactly the classes that would have been accepted at that point |
| StandardDecoderExamples.EmptyListAfterBlankLine | standard-decoder/src/test/kotlin/com/github/rimasu/node/decoder/DecoderTest.kt:69-77 | `"\n []"` decodes to an empty list anchored 2,2 to 2,3 |
| StandardDecoderExamples.UnquotedValuesInList | standard-decoder/src/test/kotlin/com/github/rimasu/node/decoder/DecoderTest.kt:107-129 | `[abcd efgh]` decodes to two leaves anchored 1,2–1,5 and 1,7–1,10 in a list anchored 1,1–1,11 |
| StandardDecoderExamples.QuotedValueInList | standard-decoder/src/test/kotlin/com/github/rimasu/node/decoder/DecoderTest.kt:131-145 | a quoted leaf drops its quotes and is anchored from quote to quote |
| StandardDecoderExamples.QuotedEscapedValueInList | standard-decoder/src/test/kotlin/com/github/rimasu/node/decoder/DecoderTest.kt:147-160 | `["ab|"cd"]` decodes to the leaf `ab"cd` anchored 1,2–1,9 |
| StandardDecoderExamples.NestedEmptyList | standard-decoder/src/test/kotlin/com/github/rimasu/node/decoder/DecoderTest.kt:181-194 | `[[]]` decodes to a list anchored 1,1–1,4 holding a list anchored 1,2–1,3 |
| StandardDecoderExamples.StructAcrossLines | standard-decoder/src/test/kotlin/com/github/rimasu/node/decoder/DecoderTest.kt:231-239 | `"(\n )"` decodes to an empty struct anchored 1,1 to 2,2 |
| StandardDecoderExamples.UnquotedValuesInStruct | standard-decoder/src/test/kotlin/com/github/rimasu/node/decoder/DecoderTest.kt:241-281 | `(a=1 b =2)` decodes to a struct with fields `a` and `b` in that order, each leaf anchored at its digit |
| StandardDecoderExamples.LaterValueReplaces | standard-decoder/src/main/kotlin/com/github/rimasu/fern/decoder/RootState.kt:48-50 | in `[]()` the struct replaces the list as the document value |
| StandardDecoderExamples.LeafAtRoot | standard-decoder/src/test/kotlin/com/github/rimasu/node/decoder/DecoderTest.kt:344-352 | `a` fails at 1,1, expecting an open struct, an open list or whitespace |
| StandardDecoderExamples.CloseStructInList | standard-decoder/src/test/kotlin/com/github/rimasu/node/decoder/DecoderTest.kt:354-362 | `[)` fails at 1,2 with the list's expected types |
| StandardDecoderExamples.IncompleteList | standard-decoder/src/test/kotlin/com/github/rimasu/node/decoder/DecoderTest.kt:374-381 | `"[\n "` fails with an end-of-input error at 2,1 |
| StandardDecoderExamples.OpenParenthesisBeforeAssignment | standard-decoder/src/test/kotlin/com/github/rimasu/node/decoder/DecoderTest.kt:441-449 | `( a ( ` fails at 1,5, expecting an assignment or whitespace |
| StandardDecoderExamples.OpenBracketBeforeAssignment | standard-decoder/src/test/kotlin/com/github/rimasu/node/decoder/DecoderTest.kt:481-489 | `( a ["` fails at 1,5, expecting an assignment or whitespace |
| LegacyDecoder.Hand | src/main/kotlin/com/github/rimasu/node/decoder/Decoder.kt:74-157 | with no container open the node becomes the document value; otherwise the outer containers are untouched, an open list appends the node, and an open struct stores it under the pending field name, clears the name and waits for the next field |
| LegacyDecoder.LegacyParse | src/main/kotlin/com/github/rimasu/node/decoder/Decoder.kt:31-43 | the driver loop returns exactly the outcome of the legacy fold, which succeeds only when control is back at the root |
| LegacyDecoderProperties.StuckAbsorbs | src/main/kotlin/com/github/rimasu/node/decoder/Decoder.kt:55-59 | once in the error state, the legacy decoder stays there and the document is rejected |
| LegacyDecoderProperties.LegacyBlankIsNull | src/main/kotlin/com/github/rimasu/node/decoder/Decoder.kt:61-77 | a blank document decodes to the null node in both dialects |
| LegacyDecoderProperties.DialectsAgreeWithoutQuotes | src/main/kotlin/com/github/rimasu/node/decoder/ParserMachine.kt:41-167 | on text without a double quote, the parser machine and the quoting decoder go through the same states and give the same outcome |
| LegacyDecoderProperties.QuoteSeparatesDialects | src/main/kotlin/com/github/rimasu/node/decoder/ParserMachine.kt:78-100 | where a value may start, a quote opens a quoted leaf in the quoting decoder and is an error in the parser machine |
| LegacyDecoderProperties.Unanchored | types/src/main/kotlin/com/github/rimasu/node/types/Node.kt:139-146 | erasing anchors leaves no anchor and keeps the null node null |
| LegacyDecoderProperties.UnanchoredIsSame | types/src/main/kotlin/com/github/rimasu/node/types/Node.kt:139-146 | a tree equals its anchor-free copy under node equality |
| LegacyDecoderProperties.HandMatches | src/main/kotlin/com/github/rimasu/node/decoder/Decoder.kt:124-213 | handing a node to the parent commutes with erasing anchors: the legacy containers still match the standard frames |
| LegacyDecoderProperties.PushMatches | src/main/kotlin/com/github/rimasu/node/decoder/Decoder.kt:61-213 | one push keeps the legacy state a simulation of the standard machine: if the legacy decoder is still running, so is the standard one, and their contents match up to anchors |
| LegacyDecoderProperties.RunMatches | src/main/kotlin/com/github/rimasu/node/decoder/Decoder.kt:31-43 | the simulation holds after any text |
| LegacyDecoderProperties.LegacyAcceptedIsAccepted | src/main/kotlin/com/github/rimasu/node/decoder/Decoder.kt:31-43 | every document the legacy decoder accepts is accepted by the position-aware decoder, with the same tree once anchors are erased |
| LegacyDecoderProperties.WhitespaceAfterFieldNameDiffers | src/main/kotlin/com/github/rimasu/node/decoder/Decoder.kt:192-199 | after a field name and a space, whitespace is an error for the legacy decoder and accepted by the position-aware one, so the converse of `LegacyAcceptedIsAccepted` does not hold |

## Left out

- File, stream and console I/O are not modelled. A document is a Dafny `string` whose characters are its code points, and lone surrogates are not modelled.
- Floating-point coercions (`asFloat`, `asDouble`) are left out, as is `hashCode`.
- The DSL builders (`NodeDsl.kt`, `FernDls.kt`), `MutableConfig`, the `fuse` packages and the Jackson decoder are not part of this model.
- `ConfigError.kt` is not part of this model beyond the three constructors that `Config.kt` calls.
- Parent pointers and object identity are not modelled. A node's path is the path used to reach it, so the one-parent `require` of `setParent` has no counterpart.
- Decimal.ParseInteger: only ASCII digits are read, while Kotlin's `toIntOrNull` also accepts other Unicode decimal digits.
- CodePoints.IsWhitespace is an explicit list standing in for `Character.isWhitespace`: the controls U+0009–U+000D and U+001C–U+001F, the space, and the Unicode space, line and paragraph separators other than the no-break spaces. No Unicode table is consulted, so a later Unicode version's additions are not followed.
- Nodes.AsInteger: the bounded `asInt` and `asLong`, and the anchor on each error, follow the accessor tests and `NodeError.kt`. The `Node.kt` shown has neither, so those contracts are stated from the tests.
- Nodes.StructGet: a missing label reports the struct's own anchor, which the `Node.kt` shown does not pass.
- StandardDecoder.Step: the position-aware list state (`src/main/kotlin/com/github/rimasu/node/decoder/ListNodeState.kt`) fails into an error state that records only the position. The decoder tests expect the list's expected types (`[)` at 1,2), so the model reports those instead.
- The driver of the position-aware decoder is not part of this model. `Parse` follows the loop of the first-generation `Decoder.kt`, with positions counted as in the decoder tests: lines and columns start at one, and a line feed starts a new line. The end-of-input error is at the final cursor, and at column 1 when the text ends with a line feed.
- The first-generation `StructNodeState.kt`, a position-only copy of the standard struct state, is not modelled separately. The standard `StructNodeState.kt` with its expected types is used instead.
- LegacyDecoder: classifies with the nine-category `CodePoints.Classify`, because `Decoder.kt` and `ParserMachine.kt` use the categories QUOTE, ASSIGNMENT and OPEN_STRUCT, which the four-category `src/main/kotlin/com/github/rimasu/node/decoder/CodePointType.kt` does not declare. The whitespace test is therefore the standard one: vertical tab, form feed, U+001C–U+001F and the Unicode spaces separate values in the model, where that file's `classify` treats them as normal code points. `LegacyCodePoints` models that file alone; no decoder uses it.
- `ParserMachine.kt` has no driver of its own; both dialects share the driver of `Decoder.kt`.
- StandardDecoderExamples.UnquotedValuesInStruct uses a two-field struct instead of the five-field document of the test.
- Paths.PathPrintExample prints a two-step path instead of the longer one in the path tests.
