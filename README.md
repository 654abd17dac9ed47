# cg: a verified model of the chord toolkit's core

cg enumerates guitar chords that satisfy a boolean rule and fingers them.
A chord is a bit mask: each of the twelve intervals gets a field, and bit `k`
of a field says whether the interval sounds in octave `k`. A rule is a list
of mask tests plus a truth table. Rules are written as infix expressions over
`!`, `&&`, `||` and parentheses. This project models the parts of the code
that compute, in Dafny, and proves what they compute:

- **Rule evaluation** (generator.hpp, module `Generator`).
  - `Condition::check` tests a mask.
  - `Rule::check` folds the condition results into a table index.
  - `Rule::check_range` scans an arithmetic progression of chords into a
    caller-owned buffer of 65536 entries. It has unrolled loops for one, two
    and three conditions.
- **Truth tables of expression trees** (expression.hpp, table-gen.hpp;
  modules `Expression`, `TableGen`, `TruthTables`).
  - `gen_table` recurses over the tree.
  - It fills a binary node's table by index, so entry `i` reads the left
    table at `i >> n` and the right one at `i & (2^n - 1)`.
  - The proofs show that entry `i` is the tree's value under the assignment
    spelled by the bits of `i`, leaf 0 most significant.
- **Infix to postfix, and postfix to tree** (parse.hpp, parse.cpp; modules
  `ShuntingYard`, `Parse`, `ParseLegacy`).
  - One two-stack shunting-yard loop, `ShuntingYard.ConvertToPostfix`, is
    shared by both files. It takes a configuration: parse.hpp treats a token
    as an operator when it is a key of the mutable global `PRECEDENCE` map;
    parse.cpp treats it as an operator when it is in the fixed `OPERATORS`
    list.
  - `std::unordered_map::operator[]` inserts a missing key with value 0, and
    the model writes that insertion out.
  - `tokens_to_expr` rebuilds the tree with a stack, and it inverts the
    postfix rendering.
- **Chord bit layouts** (chord.hpp, helpers.hpp; modules `Bits`, `Layout`,
  `Chord`, `Helpers`).
  - chord.hpp packs twelve digits into 32 bits: three bits for intervals 0 to
    7 and two bits for intervals 8 to 11. helpers.hpp uses twelve uniform
    3-bit fields in the low 36 bits of a 64-bit word.
  - The decoders give back the field digits, the bits, or the ascending
    semitone offsets `octave * 12 + interval` of the sounding notes.
  - Bits are modelled on unbounded naturals: `>>` is division by a power of
    two, `& (2^k - 1)` is the remainder, and general `&`/`|` are defined bit
    by bit.
  - The three identical `log2` loops are one method, `Bits.Log2`.
- **Fingering search** (finger.hpp, inspect.hpp; module `Fingering`).
  - The search is recursive and exhaustive. It puts the notes on six strings
    at `fret = note - OFFSETS[s]`, and `calc_score` scores each result.
  - The two files share the search. A `Board` value records the difference:
    finger.hpp adds a root and caps frets at 24; inspect.hpp takes absolute
    notes and sets no highest fret.
  - The proofs cover validity, optimality over every legal assignment, the
    strict-`<` tie-break, and the `WORST` (`INT32_MAX`) sentinel cases.

State the source mutates is modelled as mutable state:

- `PRECEDENCE` of parse.hpp is a `map` field of the class `Parse.Parser`, and
  parse.cpp's table is one of `ParseLegacy.LegacyParser`.
- `check_range` writes into a Dafny `array`.
- `gen_table` negates and fills arrays in loops.

Each imperative method is proved equal to a specification function, and the
lemmas state what that function means.

Where the code differs from the documented design, the model follows the code:

- `calc_score` has only the open-string bonus, the stretch and the register
  terms. An unplayed string (`-1`) is scored like a fret of -1, and its
  stretch to string 0 counts (`Fingering.UnplayedScore`).
- The notes are placed in the order given: the code does not sort them.
- There is no merge of single-mask rules.
- The unrolled rule loops stop at three conditions.
- `from_string` checks only the length.
- The operator tables are mutable, and parse.hpp's copy is changed by its own
  lookups (see Findings).
- chord.hpp's `Chord` is a `uint32_t`, but finger.hpp reads `chord.root` and
  `chord.notes`. `Fingering.RootedChord` is that pair.

## Model

| member | source | states |
|---|---|---|
| Generator.CheckIffCommonBit | generator.hpp:17-19 | a condition holds exactly when the chord and the mask share a set bit among the 64 |
| Generator.Index | generator.hpp:79-81 | the folded index is below `2^|conditions|`, so `table[idx]` is in bounds when the table has one entry per combination |
| Generator.IndexBit | generator.hpp:80 | condition `k` decides bit `|cs| - 1 - k` of the index: condition 0 is the most significant |
| Generator.IndexDeterminedByChecks | generator.hpp:69 | the index depends on the chord only through the condition results |
| Generator.Rule.Check | generator.hpp:78-82 | `Rule::check` returns the table entry at the index of the condition results |
| Generator.UnrolledIndex | generator.hpp:46-64 | the index expressions of the 1-, 2- and 3-condition loops equal the general fold |
| Generator.Rule.ScanOne | generator.hpp:46-50 | the one-condition loop writes exactly the matches, in scan order, and no position past them |
| Generator.Rule.ScanTwo | generator.hpp:51-56 | the two-condition loop writes exactly the matches, in scan order, and no position past them |
| Generator.Rule.ScanThree | generator.hpp:57-63 | the three-condition loop writes exactly the matches, in scan order, and no position past them |
| Generator.Rule.ScanGeneral | generator.hpp:66-73 | the general loop writes exactly the matches, in scan order, and no position past them |
| Generator.Rule.CheckRange | generator.hpp:40-74 | more than 65536 candidates fail and write nothing; otherwise the returned count is at most `count`, `out[..valid]` lists the matches and the rest of `out` is unchanged |
| Generator.CandidateClosedForm | generator.hpp:47 | candidate `i` of the scan is `start + i * step` |
| Generator.CandidateBound | generator.hpp:47 | with no wrap-around, every tested candidate is below 2^64 |
| Generator.MatchesLength | generator.hpp:43-73 | the scan never records more matches than candidates |
| Generator.MatchesMembers | generator.hpp:43-73 | a value is recorded exactly when it is some `start + i * step` with `i < count` on which the rule holds |
| Generator.MatchesRange | generator.hpp:47-71 | every recorded value lies between the first and the last candidate |
| Generator.MatchesAscending | generator.hpp:67-71 | with `step >= 1` the recorded matches are strictly ascending |
| Bits.Log2 | expression.hpp:17-21 | `log2(n)` is the position of the highest set bit of `n`, with 0 for 0 and 1 |
| Bits.FloorLog2OfPow2 | table-gen.hpp:18-22 | `log2` of a table length `2^k` is `k`, as `gen_table` relies on for `n` |
| Bits.FloorLog2Bounds | helpers.hpp:15-19 | `2^log2(n) <= n < 2^(log2(n) + 1)` for `n >= 1` |
| Expression.Table | expression.hpp:44-74 | a tree's table, when it has one, has `2^leaves` entries |
| Expression.GenTable | expression.hpp:44-74 | the recursive array-filling `gen_table` returns the table `Table` defines, or its error |
| Expression.FillProduct | expression.hpp:58-70 | the index loop of a binary node fills the array with the product table |
| Expression.BaseTable | expression.hpp:45 | a leaf's table is `[false, true]` |
| Expression.NotTable | expression.hpp:46-54 | `!` keeps the length and flips every entry |
| Expression.DoubleNegation | expression.hpp:46-54 | two negations give back the operand's table, errors included |
| Expression.BinaryTable | expression.hpp:58-70 | a binary table has `M * N` entries, and entry `u * N + l` combines left entry `u` with right entry `l` |
| Expression.BinaryOfParts | expression.hpp:56-61 | from its operands' tables a binary node gets their product, or `TooLarge` past 64 entries |
| Expression.TableOkIff | expression.hpp:61 | `gen_table` succeeds exactly when the tree has at most six leaves (64 entries) |
| Expression.TableMeaning | expression.hpp:44-74 | entry `i` is the tree's value when its leaves, left to right, take the bits of `i`, most significant first |
| TruthTables.RowAt | expression.hpp:79-81 | variable `v` of row `i` is bit `vars - v - 1` of `i`, as the table printer labels it |
| TruthTables.ProductBlocks | expression.hpp:63-68 | the left operand owns the high index bits and the right operand the low ones |
| TruthTables.NegateTwice | expression.hpp:49-51 | flipping every entry twice gives the table back |
| TableGen.Table | table-gen.hpp:68-84 | a node's table, when it has one, has `2^leaves` entries, a null child counting as one leaf |
| TableGen.GenTable | table-gen.hpp:68-84 | the recursive array-filling `gen_table` returns the table `Table` defines, or its error |
| TableGen.NodeTable | table-gen.hpp:68-71 | a node whose children have tables gets their product when its operator is binary, `BadOperator` otherwise |
| TableGen.FillEntries | table-gen.hpp:74-81 | the filling loop leaves `out` holding the product table, and fails exactly when the operator is neither AND nor OR |
| TableGen.GenChildTable | table-gen.hpp:69-70 | a null child yields `[0, 1]`, a child node its own table |
| TableGen.Print | table-gen.hpp:43-66 | `print` fails exactly on trees with an operator other than `&&`/`||`, and otherwise returns the number of leaves |
| TableGen.TableOkIff | table-gen.hpp:78-80 | a table exists exactly when every operator is `&&` or `||`, and its `log2` is the leaf count |
| TableGen.PrintCountIsTableWidth | table-gen.hpp:43-84 | the count `print` returns is `log2` of the length of `gen_table()`, and both fail on the same trees |
| TableGen.TableMeaning | table-gen.hpp:68-84 | entry `i` is the tree's value when its leaves, left to right, take the bits of `i`, most significant first |
| TableGen.DriverTable | table-gen.cpp:4-8 | the driver's tree `(((A \|\| B) && C) \|\| D)` has a 16-entry table |
| ShuntingYard.ConvertToPostfix | parse.hpp:44-73 | the two-stack loop and the final flush return what `Convert` defines, the precedence map's insertions included |
| ShuntingYard.Words | parse.hpp:48-49 | `stream >> token` extracts only non-empty runs of non-space characters |
| ShuntingYard.WordsOfJoin | parse.hpp:48-49 | words joined by single spaces are extracted back unchanged |
| ShuntingYard.PopHigherStops | parse.hpp:51-54 | the pop loop keeps a prefix of the stack and moves the rest to the output top first; every operator it moves is not `(` and ranks strictly higher than the incoming one, and it stops at the bottom, at a `(`, or under an operator of no higher precedence |
| ShuntingYard.PopToOpenFails | parse.hpp:58-63 | the `)` loop fails exactly when no `(` is stacked |
| ShuntingYard.StepFacts | parse.hpp:49-65 | one token fails only as a `)` with no `(` open, and otherwise keeps the stack shape, the operand order and the parenthesis balance |
| ShuntingYard.FlushFacts | parse.hpp:67-70 | the flush keeps the operands and outputs no `)` |
| ShuntingYard.ConvertFails | parse.hpp:58-63 | the conversion fails exactly when some prefix closes more parentheses than it opens |
| ShuntingYard.ConvertKeepsOperands | parse.hpp:64 | the operands reach the output in their input order |
| ShuntingYard.ConvertDropsParentheses | parse.hpp:56-63 | with balanced input, no parenthesis reaches the output and every other token does |
| ShuntingYard.ConvertGrowsPrecedence | parse.hpp:50-51 | the table keeps every entry; any key it gains is an operator or `(`, read as 0 |
| Parse.Parser.constructor | parse.hpp:18-20 | the table starts as `\|\|` 20, `&&` 50, `!` 100 |
| Parse.Parser.ConvertToPostfix | parse.hpp:44-73 | the conversion as written, leaving the table with the keys its lookups inserted |
| Parse.Parser.FixedConvertToPostfix | parse.hpp:50-51 | the conversion with operators recognised by the fixed list of operator tokens |
| Parse.InitialTable | parse.hpp:18-20 | the initial table holds the three operators and not `(` |
| Parse.AndBeforeOr | parse.hpp:51 | `a && b \|\| c` becomes `a b && c \|\|` |
| Parse.AndAfterOr | parse.hpp:51 | `a \|\| b && c` becomes `a b c && \|\|` |
| Parse.EqualGroupsRight | parse.hpp:51 | the pop test is strict, so `a \|\| b \|\| c` becomes `a b c \|\| \|\|` |
| Parse.NotBeforeAnd | parse.hpp:51 | `! a && b` becomes `a ! b &&` |
| Parse.TokensToExpr | parse.hpp:76-103 | the stack loop returns the tree `Build` defines, an empty `back()` or a final stack of other than one tree being an error |
| Parse.BuildPostfix | parse.hpp:76-103 | `tokens_to_expr` of a tree's postfix rendering is that tree |
| Parse.BuildIff | parse.hpp:76-103 | `tokens_to_expr` accepts exactly the postfix renderings of trees, and yields the rendered tree |
| Parse.PipelineRoundTrip | parse.hpp:44-103 | with operators recognised by the list, a fully parenthesised tree goes to its postfix form and back to the tree |
| Parse.CompletedTable | parse.hpp:51 | inserting `(` with 0 changes no reading of the table |
| Parse.AsWrittenMisorders | parse.hpp:50-51 | as written, `( ! ( ! a ) )` becomes `! a !`, and the table gains `(` |
| Parse.LaterCallMisorders | parse.hpp:50-51 | once `(` is a key, `a && ( b \|\| c )` becomes `a && b c \|\|`, which builds no tree |
| Parse.CorrectedOrders | parse.hpp:50-51 | the corrected conversion renders `( ! ( ! a ) )` as `a ! !`, which builds the tree |
| ParseLegacy.LegacyParser.constructor | parse.cpp:9-12 | the table starts as `\|\|` 20, `&&` 50, `'` 100, `(` 999 |
| ParseLegacy.LegacyParser.ConvertToPostfix | parse.cpp:14-45 | the conversion with operators from `OPERATORS`; from the initial table, the table is left unchanged |
| ParseLegacy.TableFixed | parse.cpp:9-12 | a table holding every operator and `(` is never changed by the lookups |
| ParseLegacy.LegacyConvertFacts | parse.cpp:14-45 | from the initial table: fails exactly on an unmatched `)`, otherwise keeps the operands in order and the table unchanged |
| ParseLegacy.LegacyRoundTrip | parse.cpp:14-45 | a fully parenthesised term written with single spaces comes out in postfix order |
| ParseLegacy.OpenGuard | parse.cpp:23 | `(` at 999 is never popped by an operator: `a && ( b \|\| c )` becomes `a b c \|\| &&` |
| ParseLegacy.OpenGuardInitial | parse.cpp:9-23 | the same on the table the file starts with |
| Chord.LayoutFacts | chord.hpp:17-19 | twelve fields whose widths sum to `BITS` = 32 |
| Chord.WidthAt | chord.hpp:18 | intervals 0 to 7 have three bits, intervals 8 to 11 two |
| Chord.WidestField | chord.hpp:37 | the widest field has three bits, the number of octaves `print_intervals` visits |
| Chord.Accumulate | chord.hpp:25-31 | the accumulator stays below 2^32, as `uint32_t` shifts truncate |
| Chord.FromString | chord.hpp:22-34 | fails exactly when the string is not 12 characters long; otherwise the 32-bit accumulation, which for digits that fit their fields is the fields packed |
| Chord.PackedDigits | chord.hpp:25-31 | for digits that fit, the result is each digit shifted past the fields after it |
| Chord.ZeroPrefix | chord.hpp:25-31 | leading `0`s contribute nothing |
| Chord.DigitSpills | chord.hpp:29-30 | no digit is range-checked: `"000000000004"` and `"000000000010"` encode the same chord |
| Chord.Mixed | chord.hpp:58-66 | `print_mixed` writes the field values, interval 0 first |
| Chord.FieldDigitBounds | chord.hpp:62 | every field value is below 8, so one numeral each |
| Chord.MixedOfFromString | chord.hpp:22-66 | `print_mixed` gives back the digits `from_string` packed, when they fit |
| Chord.FieldsRecoverChord | chord.hpp:58-66 | every 32-bit chord is its fields packed again |
| Chord.FromStringOfMixed | chord.hpp:22-66 | `from_string` of the digits `print_mixed` writes is the chord again |
| Chord.Binary | chord.hpp:49-56 | `print_binary` writes bits 31 down to 0, one group per field |
| Chord.BinaryAgreesWithMixed | chord.hpp:49-66 | each group `print_binary` writes, read in binary, is that field's `print_mixed` digit |
| Chord.Intervals | chord.hpp:36-47 | `print_intervals` lists the sounding notes below 36, octave by octave |
| Chord.OctaveIntervals | chord.hpp:39-45 | one octave's pass extends the notes listed below `12 * octave` to those below `12 * octave + 12` |
| Chord.IntervalNote | chord.hpp:42-44 | one interval moves the shift past its field and appends its note exactly when that bit is set |
| Chord.NarrowFieldsSilent | chord.hpp:40 | the early `break` skips only notes that cannot sound |
| Chord.IntervalsMeaning | chord.hpp:36-47 | it lists exactly the `o` whose octave bit is set in their interval's field, each once and in increasing order |
| Helpers.ConstantsAgree | constants.hpp:4-8 | `BASE = 1 << OCTAVES`, `BITS = INTERVALS * OCTAVES`, `MAX = 1 << BITS` |
| Helpers.OctalDigits | helpers.hpp:9-13 | `print_bits_octal` writes the twelve 3-bit fields, interval 0 first |
| Helpers.OctalDigitsMeaning | helpers.hpp:9-13 | every digit is octal, and for a chord below `MAX` they are its base-8 numeral |
| Helpers.OctalRoundTrip | helpers.hpp:9-13 | twelve octal digits are written back from the chord they spell |
| Helpers.ChordNotes | helpers.hpp:21-30 | `print_chord` lists the sounding notes below 36, octave by octave |
| Helpers.ChordNotesMeaning | helpers.hpp:21-30 | it lists exactly the `o < 36` whose bit `(11 - o % 12) * 3 + o / 12` is set, in increasing order |
| Helpers.NotesAreDigitBits | helpers.hpp:9-30 | note `o` is listed exactly when bit `o / 12` of octal digit `o % 12` is set |
| Helpers.HighBitsIgnored | helpers.hpp:9-30 | bits 36 and up change neither printer |
| Fingering.CalcScore | finger.hpp:36-46 | `calc_score` is the sum of the entry scores: -1 for an open string, otherwise the stretch to string 0 times 10 plus the fret |
| Fingering.ScoreRange | finger.hpp:23-46 | with frets from -1 to 24 the score lies between -6 and 1644, below `WORST` |
| Fingering.UnplayedScore | inspect.hpp:34-44 | an unplayed string is scored as a fret of -1: the empty fingering scores -6, like six open strings |
| Fingering.Finger | finger.hpp:51-83 | the recursive search with its string loop returns what `Search` defines; with notes left and six strings taken, it returns `WORST` and the input |
| Fingering.FingerChord | finger.hpp:51-83 | finger.hpp's search: notes `root + notes[k]`, frets 0 to 24 |
| Fingering.FingerNotes | inspect.hpp:49-81 | inspect.hpp's search: absolute notes, every fret from 0 up |
| Fingering.SearchFound | finger.hpp:55-80 | a score below `WORST` belongs to a complete legal placement of the remaining notes, and is that fingering's `calc_score` |
| Fingering.SearchKeeps | finger.hpp:65-73 | a found fingering keeps every fret already set and plays one more string per remaining note |
| Fingering.SearchOptimal | finger.hpp:62-80 | no complete legal placement extending the input scores below the result |
| Fingering.SearchWorst | finger.hpp:62-82 | with notes left and strings to spare, the score is at most `WORST`, and `WORST` exactly when the fingering is `EMPTY_FING` |
| Fingering.NoLegalString | inspect.hpp:60-80 | a note with no legal free string gives `WORST` with `EMPTY_FING` |
| Fingering.TooManyNotes | finger.hpp:53-82 | more notes than free strings give `WORST` with `EMPTY_FING` |
| Fingering.Unplayable | inspect.hpp:51-56 | seven or more notes from the empty fingering give `WORST` with `EMPTY_FING` |
| Fingering.SearchChoice | finger.hpp:65-79 | the result is the one found on some string `s`; every tried string scored no less, and every string before `s` scored more |
| Fingering.BoundedFound | finger.hpp:69-70 | on the 24-fret board, a placement always yields a score below `WORST` |
| Fingering.ChordFingering | finger.hpp:51-83 | from the empty fingering, finger.hpp finds a fingering exactly when the chord can be placed, and then one of lowest score |
| Fingering.NotesFingering | inspect.hpp:49-81 | from the empty fingering, inspect.hpp's result below `WORST` is a placement of that score, and no placement scores lower |

## Left out

- Stream output is not modelled. This covers `print_expr`, both `print_table`s, `Rule::print`, `finger::print`, `print_fingering` and `inspect::inspect`, and the `cout`/`cerr` side of the chord and helpers printers. The printers are modelled by the values they write.
- The `Expr(std::string&)` constructor (table-gen.hpp:35-40) refers to an `out` that does not exist, so there is nothing to model.
- `main` of cg.cpp, parse.cpp, testing.cpp and table-gen.cpp are drivers that read arguments and files. cg.cpp also calls `Ruleset`, `read_rules_from_file`, `read_rule` and `print_matching`, and none of them is defined in the files, so named rules and forward references are absent. Only table-gen.cpp's tree is used (`TableGen.DriverTable`).
- `chord::to_intervals` (inspect.hpp:92) is not part of this model. The inspect search starts from a note sequence.
- Heap allocation and ownership are not modelled. The raw `new` of `tokens_to_expr` and the shared or raw child pointers become algebraic datatypes, and a null child is `TableGen.Child.Null`.
- Concurrency is not modelled. cg.cpp includes `<future>` but starts no thread.
- Generator.Rule.CheckRange: the 64-bit wrap-around of `j += step` is excluded by the precondition `NoWrap` and is not modelled. The `throw` for `count > BUFSIZE` is an `Err` result.
- Generator.Rule.ScanGeneral: the index is an unbounded `nat`. The source folds it into an `int table_idx`, so from 32 conditions on, `1 << 31` leaves `int` range and the table read is undefined behaviour; from 33 conditions on, index bits are also lost. The model agrees with `Rule::check`'s `uint64_t` fold there. Generator.Rule.CheckRange inherits this through its general path. Tables that `gen_table` builds have at most 6 conditions.
- TableGen.Print: the leaf counter is an unbounded integer. The source counts in a `char next_v` from `'A'` (65), so on a signed-char target the 63rd leaf wraps it past 127, and the returned `next_v - initial_v` is no longer the leaf count. The count is exact only up to 62 leaves. The same holds for `TableGen.PrintCountIsTableWidth`.
- TableGen.Table: the table length `M*N` is an unbounded integer. The source computes it in `size_t`, which wraps to 0 at 64 leaves, where the source returns an empty table. The length `2^leaves` is exact only up to 63 leaves. The same holds for `TableGen.GenTable`, `TableGen.NodeTable` and `TableGen.TableOkIff`.
- A bare `throw`, and `back()` on an empty vector, are `Err` results of the model: `ParseError`, `BuildError`, `TableError` and `ChordError`.
- Fingering.Search: frets and scores are unbounded integers. The 32-bit `int` overflow of `root + notes[k]`, of `calc_score` and of inspect.hpp's unbounded frets is not modelled. On the 24-fret board no score comes near it (`Fingering.ScoreRange`).
- Chord.FromString measures the string in characters. `std::string::size` counts bytes, so multi-byte characters are not modelled.
- Fingering.SearchChoice states the tie-break one string at a time. It does not order the complete search tree.

## Findings

| source | as written | input that shows it | evidently intended | confidence | as-written member | corrected member |
|---|---|---|---|---|---|---|
| parse.hpp:50-51 | The pop test reads `PRECEDENCE[ops.back()]` with `operator[]`, which inserts `(` with 0 whenever an operator arrives right above a `(`. From then on `(` is a key, so every later `(` is taken for an operator and pops what is pending. | `( ! ( ! a ) )` comes out as `! a !`, which builds no tree. Afterwards, `a && ( b \|\| c )` comes out as `a && b c \|\|` (`Parse.LaterCallMisorders`). | `(` always opens a group, and the table stays as initialised: recognise operators by the fixed operator list, as parse.cpp does. | not executed | Parse.AsWrittenMisorders | Parse.CorrectedOrders |
