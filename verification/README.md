# RetroBSD userland algorithms

This project models self-contained algorithms of the RetroBSD userland in Dafny
and proves what they are for. Each module follows one program:

- `RegexpSyntax`, `RegexpCode`, `RegexpMachine`, `RegexpParser`, `RegexpText`,
  `RegexpShow`, `RegexpClass`, `RegexpCompiler`, `RegexpGrammar`, `RegexpLinks`,
  `RegexpTermination`, `RegexpWays`, `RegexpOrder`, `RegexpPriority`,
  `RegexpMatch`, `RegexpPackage`, `RegexpLost`: the regular expression package of
  libtcl. A recursive-descent compiler, which moves and patches code it has
  already emitted and works in a counting and an emitting pass, accepts exactly
  the language of patterns and is proved against the meaning of syntax trees. The
  backtracking matcher is proved to end on every compiled program and, with
  repetitions counted in integers, to find a match exactly when there is one; the
  prefilters of the search lose none, and the match found is the leftmost. Which
  of several matches from there is found, and the bounds recorded for its groups,
  are fixed by the pattern alone: a tree has an ordered list of ways, compilation
  keeps their order, and the matcher finds the first. The program counts in 16
  bits, and the counter wraps around where a STAR leads nowhere; when this happens
  is proved too, with an input.
- `Factor`: Dijkstra's search for the smallest prime factor in a mixed radix.
- `SortQuick`, `SortNumeric`, `SortNumeral`, `SortMerge`, `SortProgram`: the
  quicksort, the numeric comparison of digit strings, the merge and the passes of
  sort(1), up to the whole sort.
- `Dictionary`: the order of a dictionary, by which sort and join compare.
- `Join`: the merge join of join(1), which reads groups of its second file again.
- `SortJoin`: sort and join together.
- `Tsort`: topological sorting with a search for cycles, whose output is fixed by
  a rule on the pairs read.
- `EdStore`: the temporary file of ed(1) behind its two block buffers.
- `Grep`, `GrepText`: the pattern compiler and the backtracking matcher of
  grep(1), and the language of its patterns.
- `CanfieldCards`, `Canfield`: the game of canfield(6) as a state machine over
  linked piles of cards, whose every round is a function of the table and the
  command.
- `FgrepWords`, `Fgrep`: the keyword automaton of fgrep(1), and exactly when it
  finds every keyword.
- `Primes`: the wheel sieve of primes(6).
- `Tar`, `TarHeader`: the blocking and framing of tar(1) archives, and the size
  of a file in the text of its header.

State that the programs change in place is held in classes and arrays. Methods
follow the programs step by step and are proved against functions and predicates
over plain values; the lemmas are about these. A ghost parameter or result of a
method is bookkeeping for its proof. Acceptance by a compiled regular expression
is a relation over the nodes of a program, following the notes on opcodes at
src/libtcl/regexp.c:58-97.

## Model

| member | source | states |
|---|---|---|
| `RegexpSyntax.MatchBounds` | src/libtcl/regexp.c:58-97 | A match of a piece lies within the subject and does not run backwards |
| `RegexpSyntax.HasWidthSound` | src/libtcl/regexp.c:323-335 | A piece flagged HASWIDTH never matches the empty string |
| `RegexpSyntax.AltsHaveWidthSound` | src/libtcl/regexp.c:323-335 | The same for a list of alternatives, whose flag is the conjunction of the flags of its branches |
| `RegexpSyntax.LoopsConsume` | src/libtcl/regexp.c:427-450 | In every pattern that passes the empty-operand check, each trip round a `*` or `+` consumes input, which bounds the number of trips |
| `RegexpCode.SetNextCode` | src/libtcl/regexp.c:722-747 | Setting the `next` field of the tail of a piece of code with a dangling tail gives exactly the code linked to the new target |
| `RegexpCode.CodePath` | src/libtcl/regexp.c:1107-1123 | Following `next` from the first node of the code of a piece stays inside it and ends at its tail, then at the byte it is linked to |
| `RegexpCode.AltsPath` | src/libtcl/regexp.c:326-332 | The BRANCH nodes of a list of alternatives are chained in order, the last one to the end |
| `RegexpMachine.Complete` | src/libtcl/regexp.c:58-97 | If the syntax tree matches i..k and the program accepts from k after the code, the program accepts from i at its start |
| `RegexpMachine.Sound` | src/libtcl/regexp.c:58-97 | A finite sequence of steps through the code of a piece splits into a match of its syntax tree and a shorter sequence after the code |
| `RegexpMachine.CompilationPreservesMeaning` | src/libtcl/regexp.c:290-465 | For every pattern, subject and pair of positions, the program accepts from its first node exactly when the alternatives of the pattern match |
| `RegexpText.ParsesExactly` | src/libtcl/regexp.c:290-652 | The recursive descent builds a tree for a text exactly if the text is written for that tree in the language of patterns, which is given as a relation between positions: tests, quoted and plain characters, classes, numbered groups of at most nine, one operator on an atom and none that could repeat the empty string, alternatives |
| `RegexpText.AcceptsExactly` | src/libtcl/regexp.c:290-652 | A pattern is accepted exactly if it is a text of the language |
| `RegexpShow.ShowThenParse` | src/libtcl/regexp.c:290-652 | Printing a tree of single characters, tests, classes, groups, operators and alternatives, with any choice of quoting and of bars or newlines, and reading the text gives the tree back |
| `RegexpClass.ClassMeans` | src/libtcl/regexp.c:495-532 | A class is accepted exactly if its bracket is closed and its ranges run upward below the greatest byte; it matches one character, which its text names by itself or in a range, or after a circumflex one that it does not name |
| `RegexpWays.WaysMatch` | src/libtcl/regexp.c:58-97 | The ordered ways of a tree lead exactly to the positions up to which it matches |
| `RegexpWays.RecordedLast` | src/libtcl/regexp.c:939-993 | What is recorded for a group is the position of its last mark on the way, and nothing if the way has none |
| `RegexpOrder.ConsumesOneWay` | src/libtcl/regexp.c:882-938 | A node without a choice can be passed in one way at most |
| `RegexpPriority.CodeGives` | src/libtcl/regexp.c:58-97 | From the start of the code of a piece, the ways on are its ways in their order, each followed by the ways from behind the code, with the marks of the groups passed |
| `RegexpPriority.StarGives` | src/libtcl/regexp.c:427-441 | The loop that BACK closes tries another trip before it is left |
| `RegexpPriority.SimpleGives` | src/libtcl/regexp.c:1013-1039 | A loop over one character tries its repetitions from the most to the fewest, which are the ways of the tree |
| `RegexpPriority.ProgramGives` | src/libtcl/regexp.c:290-465 | For every pattern, subject and position, the ways from the start of the program are those of the alternatives of the pattern, in the same order and with the same marks |
| `RegexpGrammar.GatherText` | src/libtcl/regexp.c:568-648 | Gathering ordinary characters into one node, giving back the last one before a multiplier, reads the same pieces as one character at a time |
| `RegexpGrammar.PiecesAgree` | src/libtcl/regexp.c:369-398 | A branch read with gathering and one read without are accepted together, end at the same place, and have the same ways in the same order |
| `RegexpGrammar.RegsAgree` | src/libtcl/regexp.c:290-362 | The same for whole groups and patterns, including their errors |
| `RegexpGrammar.GatheringPreservesMeaning` | src/libtcl/regexp.c:568-648 | For every pattern, the grammar with gathered strings and the grammar of single characters agree in acceptance and in all ways of matching, their order and their groups included |
| `RegexpGrammar.EquivMatch` | src/libtcl/regexp.c:568-648 | Alternatives with the same ways match the same |
| `RegexpLinks.CodeClosed` | src/libtcl/regexp.c:657-759 | The code of a piece falls into nodes, and every `next` field in it is null or leads to the start of a node |
| `RegexpLinks.ProgramClosed` | src/libtcl/regexp.c:657-759 | Every `next` field of a finished program is null or lands on a node boundary inside the program; if no `*` of the pattern follows a simple operand, none of its nodes is a STAR |
| `RegexpLinks.StarlessProgram` | src/libtcl/regexp.c:864-1057 | If no `*` of the pattern follows a simple operand, no run from any position meets a STAR |
| `RegexpLinks.CompiledPattern` | src/libtcl/regexp.c:220-240 | Compilation and gathering together: a compiled program accepts exactly what the pattern means in the plain grammar, and its ways are those of the pattern in their order |
| `RegexpTermination.CodeEnds` | src/libtcl/regexp.c:864-1057 | If the matcher ends from every position to which a piece can lead, it ends from the start of its code, whatever choices it takes |
| `RegexpTermination.StarEnds` | src/libtcl/regexp.c:427-450 | The loop that BACK closes round a piece is left after as many trips as there are characters, since every trip consumes one |
| `RegexpTermination.AltsEnds` | src/libtcl/regexp.c:290-362 | The same for a chain of alternatives |
| `RegexpTermination.ProgramEnds` | src/libtcl/regexp.c:864-1057 | On every compiled program, from every position of every subject, all ways through the nodes end and none leaves the program |
| `RegexpMatch.AcceptsBranch` | src/libtcl/regexp.c:995-1011 | A BRANCH accepts exactly when its operand or the next BRANCH does |
| `RegexpMatch.AcceptsLoop` | src/libtcl/regexp.c:1013-1039 | A STAR or PLUS accepts exactly when what follows accepts after some number of repetitions |
| `RegexpMatch.SomeOnes` | src/libtcl/regexp.c:1062-1102 | The repetitions possible are exactly those from the least number up to the first character that does not match |
| `RegexpMatch.FirstStands` | src/libtcl/regexp.c:1020-1026 | The lookahead is right: a string node matches only where its first character stands |
| `RegexpMatch.Executor.MatchString` | src/libtcl/regexp.c:911-923 | The string of an EXACTLY node is found at the current position exactly when it stands there |
| `RegexpMatch.Executor.MatchPlain` | src/libtcl/regexp.c:882-938 | A node without a choice succeeds exactly when it can be passed, and moves the position as it must |
| `RegexpMatch.Executor.RegRepeat` | src/libtcl/regexp.c:1062-1102 | The count is the greatest number of repetitions, and the position is behind them |
| `RegexpMatch.Executor.TryBranches` | src/libtcl/regexp.c:995-1011 | Trying the branches in turn from the same position finds the first way of the whole choice, fails or gets lost as it should |
| `RegexpMatch.MeetsBranch` | src/libtcl/regexp.c:995-1011 | A run from a BRANCH can meet a STAR exactly when one from its operand or the next BRANCH can |
| `RegexpMatch.NothingLeads` | src/libtcl/regexp.c:1013-1039 | If no number of repetitions leads on, the loop does not |
| `RegexpMatch.Executor.TryLoop` | src/libtcl/regexp.c:1013-1039 | Trying fewer and fewer repetitions, with the lookahead, on an integer counter: a way is found exactly when some number of them leads on, and it is the first one in order, that of the most repetitions that lead on. On the 16-bit counter, if no try gets lost itself, the counter wraps and the position leaves the subject exactly when the node is a STAR and nothing leads on; otherwise the answer is the same |
| `RegexpMatch.Executor.TryNext` | src/libtcl/regexp.c:1020-1033 | Skipping a try whose next character does not fit changes nothing |
| `RegexpMatch.Executor.MatchMark` | src/libtcl/regexp.c:939-993 | A parenthesis is recorded after what follows it has matched, unless a later one of its group was; what is recorded then is that of the first way |
| `RegexpMatch.Executor.RegMatch` | src/libtcl/regexp.c:864-1057 | The matcher ends. On an integer counter it succeeds exactly when the program accepts; where it ends and the groups recorded are those of the first way in order, from every node. On 16 bits it answers no exactly when the program does not accept and no run meets a STAR, and gets lost only where a run meets one |
| `RegexpMatch.Executor.RegTry` | src/libtcl/regexp.c:829-852 | The same for a try at a position, in terms of what the pattern matches there: end and groups are those of the first way of the pattern, group 0 is the whole match |
| `RegexpCompiler.Compiler.Regc` | src/libtcl/regexp.c:681-688 | One byte is stored, or only counted in the sizing pass |
| `RegexpCompiler.Compiler.RegNode` | src/libtcl/regexp.c:657-676 | A node with a null `next` is appended, and its address returned, in both passes |
| `RegexpCompiler.Compiler.PutNode` | src/libtcl/regexp.c:669-672 | Three bytes are stored, and no other byte of the buffer changes |
| `RegexpCompiler.Compiler.MoveUp` | src/libtcl/regexp.c:707-711 | Copying from the end, an operand moves up by one node although old and new place overlap, and nothing before it changes |
| `RegexpCompiler.Compiler.RegInsert` | src/libtcl/regexp.c:695-717 | The operand already emitted is moved up by three bytes behind a new node, and nothing before it changes |
| `RegexpCompiler.Compiler.ChainEnd` | src/libtcl/regexp.c:732-739 | The walk along `next` ends at the last node of the chain |
| `RegexpCompiler.Compiler.RegTail` | src/libtcl/regexp.c:722-747 | The chain from a node is followed to its end, and only that end is linked to the given node |
| `RegexpCompiler.Compiler.RegOpTail` | src/libtcl/regexp.c:752-759 | The same for the operand of a BRANCH; other nodes are left alone |
| `RegexpCompiler.Compiler.TextChars` | src/libtcl/regexp.c:600-641 | The characters stored and the position after them are those of the gathered string, also when the last character is given back to a multiplier |
| `RegexpCompiler.Compiler.RegText` | src/libtcl/regexp.c:568-648 | The string node emitted holds the characters the grammar gathers, and the cursor stops where the grammar does |
| `RegexpCompiler.Compiler.ClassDash` | src/libtcl/regexp.c:506-520 | A `-` is stored for itself before the closing bracket, and otherwise stands for the rest of a range or for an error |
| `RegexpCompiler.Compiler.ClassChars` | src/libtcl/regexp.c:503-528 | The characters of a class are expanded in order, ranges and their errors included |
| `RegexpCompiler.Compiler.RegClass` | src/libtcl/regexp.c:495-532 | A class becomes ANYOF or, exactly after a circumflex, ANYBUT with its expanded characters, or an error, as the grammar says that `RegexpClass.ClassMeans` is about |
| `RegexpCompiler.Compiler.RegAtom` | src/libtcl/regexp.c:475-652 | An atom is accepted exactly when the grammar accepts it, and its code and flags are those of its syntax tree |
| `RegexpCompiler.Compiler.EmitStar` | src/libtcl/regexp.c:435-441 | Code with a dangling tail becomes the code of the loop, with both branches and the way back linked |
| `RegexpCompiler.Compiler.EmitPlus` | src/libtcl/regexp.c:444-450 | The same for one or more trips |
| `RegexpCompiler.Compiler.EmitOpt` | src/libtcl/regexp.c:451-458 | The same for an optional piece |
| `RegexpCompiler.Compiler.EmitRepeat` | src/libtcl/regexp.c:425-458 | Whichever multiplier and operand, the code becomes that of the repeated syntax tree |
| `RegexpCompiler.Compiler.RegPiece` | src/libtcl/regexp.c:409-465 | A piece is accepted exactly when the grammar accepts it; empty operands of `*` and `+` and nested multipliers are errors; code and flags are those of the tree |
| `RegexpCompiler.Compiler.NextPiece` | src/libtcl/regexp.c:383-392 | One more piece is emitted and the chain of the pieces before it is linked to it |
| `RegexpCompiler.Compiler.RegBranch` | src/libtcl/regexp.c:369-398 | The pieces of an alternative are emitted and chained so that the code is that of their concatenation |
| `RegexpCompiler.Compiler.FirstAlternative` | src/libtcl/regexp.c:313-321 | The first alternative is emitted, and the mark of a group leads to it |
| `RegexpCompiler.Compiler.NextBranch` | src/libtcl/regexp.c:327-332 | One more alternative is emitted, and the last BRANCH before it leads to it |
| `RegexpCompiler.Compiler.RegAlts` | src/libtcl/regexp.c:313-336 | The alternatives are emitted and their BRANCH nodes chained; flags are combined as for the tree |
| `RegexpCompiler.Compiler.LinkTails` | src/libtcl/regexp.c:342-344 | The tails of all branches are linked to the closing node, which completes the code of the alternatives |
| `RegexpCompiler.Compiler.RegEnder` | src/libtcl/regexp.c:338-344 | With the closing node the code is that of the whole group or program: the last BRANCH and all operands lead to it |
| `RegexpCompiler.Compiler.Reg` | src/libtcl/regexp.c:290-362 | A whole pattern or group: accepted exactly when the grammar accepts it, with the code of its syntax tree; both passes go through this contract |
| `RegexpPackage.RegexpSize` | src/libtcl/regexp.c:182-202 | The size counted is the length of the program the second pass emits, modulo the width of the counter, and zero for a rejected pattern |
| `RegexpPackage.LongestText` | src/libtcl/regexp.c:265-276 | The walk along `next` finds the longest string that stands on the chain, the later one of equals |
| `RegexpPackage.TextsSound` | src/libtcl/regexp.c:265-276 | Every string that stands on the top-level chain occurs in every match |
| `RegexpPackage.FirstSound` | src/libtcl/regexp.c:251-255 | A first character or anchor taken from the first node holds at the start of every match |
| `RegexpPackage.PrefilterSound` | src/libtcl/regexp.c:242-277 | If the pattern matches at a position, the subject holds `must`, the position holds `start`, and an anchored pattern is at position 0 |
| `RegexpPackage.DeriveFilter` | src/libtcl/regexp.c:242-277 | First character, anchor and required string, read off the emitted bytes, are those of the syntax tree |
| `RegexpPackage.RegexpCompile` | src/libtcl/regexp.c:220-279 | The buffer receives the program of the pattern, and the prefilters are those the soundness lemmas are about; a rejected pattern gives false |
| `RegexpPackage.StrChr` | src/libtcl/regexp.c:810-814 | The first occurrence of a character from a position on, or none |
| `RegexpPackage.Present` | src/libtcl/regexp.c:787-797 | Whether a string occurs in the subject |
| `RegexpPackage.PrefilterLosesNone` | src/libtcl/regexp.c:769-824 | Every position with a match survives the tests on `must`, `start` and `anchor` |
| `RegexpPackage.RegexpExecute` | src/libtcl/regexp.c:769-824 | With an integer counter, the search with all prefilters finds a match exactly when the subject has one; the match found starts as early as any, and its end and the bounds of its groups are those of the first way of the pattern from there. With 16 bits, a subject without a match is answered exactly if no position that passes the prefilters leads to a STAR |
| `RegexpPackage.CompileAndExecute` | src/libtcl/regexp.c:769-824 | Compiler, prefilters and matcher together: whether there is a match, where it starts and ends and the bounds of its groups are what the pattern means when read one character at a time; with a 16-bit counter too, if no `*` of the pattern follows a simple operand |
| `RegexpLost.PatternParses` | src/libtcl/regexp.c:290-465 | The tree of the pattern ^a*b |
| `RegexpLost.MeetsLoop` | src/libtcl/regexp.c:1013-1039 | In every program compiled from ^a*b, a run from the start meets the STAR |
| `RegexpLost.SearchIsLost` | src/libtcl/regexp.c:1013-1039 | The search for ^a*b in cb, with a 16-bit counter, leaves the subject, although the pattern matches nowhere |
| `RegexpParser.RangeLoopEnds` | src/libtcl/regexp.c:517-518 | The loop over a range of characters, which counts in an unsigned char, ends exactly when the range does not end at 0377 |
| `Factor.ShiftedValue` | src/games/factor.c:43-55 | Moving to the next radices, digit by digit with borrows, keeps the number represented |
| `Factor.LowestDigit` | src/games/factor.c:40-40 | The radix f divides the number exactly when its lowest digit is zero |
| `Factor.FewDigitsPrime` | src/games/factor.c:59-63 | A number below (f+1) squared that nothing up to f divides is prime |
| `Factor.Expand` | src/games/factor.c:27-36 | The digits are in range, the leading one is not zero, their value is N, and they fit the array of 24 |
| `Factor.Settle` | src/games/factor.c:47-53 | The borrow loop ends with the digit in range, and the value is kept |
| `Factor.MoveUp` | src/games/factor.c:43-55 | One round represents the same N in radices one higher, all digits in range |
| `Factor.Trim` | src/games/factor.c:56-57 | Dropping leading zeros keeps the value and leaves a leading digit that is not zero |
| `Factor.SmallestFactor` | src/games/factor.c:17-66 | For N above 1 the result is the smallest prime factor of N; for 1 it is 1 |
| `Factor.PrintFactors` | src/games/factor.c:71-83 | The numbers printed are primes, do not decrease, and multiply to n |
| `SortQuick.Partition` | src/cmd/sort.c:849-892 | The range is permuted into lines before, equivalent to, and after a pivot taken from it |
| `SortQuick.FromTheLeft` | src/cmd/sort.c:857-867 | One line from the left joins the lines before the pivots or the pivots, and the three parts are kept; a line after the pivots stays for an exchange |
| `SortQuick.FromTheRight` | src/cmd/sort.c:869-890 | A scan from the right keeps the three parts and stops at an exchange or when they meet |
| `SortQuick.TakeRight` | src/cmd/sort.c:870-889 | One line from the right joins the part it belongs to, by an exchange or by a rotation past the pivots, and the three parts are kept |
| `SortQuick.Blank` | src/cmd/sort.c:894-895 | Exactly the lines of a range are blanked |
| `SortQuick.QuSort` | src/cmd/sort.c:835-911 | For any total preorder the range becomes a sorted permutation of itself; recursion goes to the smaller side, so its depth is logarithmic; with -u the first line of each class alone is kept |
| `SortQuick.OneKeptPerClass` | src/cmd/sort.c:893-903 | With -u every class of equivalent lines has exactly one line kept |
| `SortNumeric.ScanInteger` | src/cmd/sort.c:606-628 | The sign and the ends of the integer part are where the layout of a number has them, after a tab and blanks |
| `SortNumeric.CompareIntegers` | src/cmd/sort.c:629-640 | The comparison of the integer parts has the sign of the difference of their values |
| `SortNumeric.CompareFractions` | src/cmd/sort.c:641-655 | With equal integer parts, the comparison of the fractions has the sign of the difference of the values |
| `SortNumeric.NumericCompare` | src/cmd/sort.c:605-657 | For digit strings of any length, with signs, leading zeros and fractions, the result has the sign of the difference of the decimal values, turned by the -r flag |
| `SortNumeral.NumeralValue` | src/cmd/sort.c:605-628 | A line that starts with blanks, a sign, digits and a fraction has the value that these write, whatever follows them |
| `SortNumeric.PlainCompare` | src/cmd/sort.c:680-694 | The default comparison, turned by the -r flag; `SortNumeric.PlainOrderBefore` says which order this is |
| `SortNumeric.PlainOrderBefore` | src/cmd/sort.c:680-694 | The default comparison is the order of a dictionary: the first character that differs decides, and a line comes before its continuations |
| `SortNumeric.Compare` | src/cmd/sort.c:578-678 | Numeric order on whole lines, with ties decided by the default comparison |
| `SortNumeric.LineOrderIsPreorder` | src/cmd/sort.c:578-694 | The comparison of lines is a total preorder, which is what sorting and merging need |
| `SortMerge.Sift` | src/cmd/sort.c:450-455 | The source that was advanced is moved to its place, and all sources are in order of their current lines |
| `SortMerge.Next` | src/cmd/sort.c:443-449 | The next line of the last source is read, and a source at its end is dropped |
| `SortMerge.WriteLine` | src/cmd/sort.c:426-457 | One round of the merge: the least line of all sources is written, and what is written and what is left are together what there was |
| `SortMerge.OpenAll` | src/cmd/sort.c:394-403 | The sources opened hold exactly the lines of the files that are not empty |
| `SortMerge.Merge` | src/cmd/sort.c:381-477 | Merging files in order gives all their lines, each as often as it occurs, in order |
| `SortMerge.Passes` | src/cmd/sort.c:287-297 | The passes end, use every pending file once, and leave one output with exactly the lines of the files, in order |
| `SortMerge.ReadRun` | src/cmd/sort.c:318-353 | A buffer takes lines on from file to file; what is read and what is pending are together what was pending |
| `SortMerge.SortRun` | src/cmd/sort.c:354-369 | A buffer is written as a permutation of its lines in order |
| `SortMerge.SortFiles` | src/cmd/sort.c:282-372 | Whatever the buffer sizes, sort writes all lines of all files, each as often as it occurs, in order |
| `SortProgram.SortNumbers` | src/cmd/sort.c:282-372 | sort -n: all lines of all files, in the order of their decimal values, and in that of a dictionary where these are equal; both turned round by -r |
| `SortProgram.SortUnique` | src/cmd/sort.c:354-371 | sort -u on one buffer: exactly one line of every class of equivalent lines, in order |
| `SortJoin.SortedQuery` | src/cmd/join.c:213-217 | Files that sort wrote in the order of their join fields are what join asks for |
| `SortJoin.SortAndJoin` | src/cmd/join.c:103-141 | Sorting both inputs on their join fields and joining them gives the relational join of all their lines, unless a blank line ends one early |
| `Join.StrCmpPreorder` | src/cmd/join.c:213-217 | The comparison of keys is a total preorder |
| `Join.StrCmpBefore` | src/cmd/join.c:213-217 | The comparison of keys is the order of a dictionary: the first character that differs decides, and a key comes before its continuations |
| `Join.UpToBlankIsPrefix` | src/cmd/join.c:145-171 | A blank line, which has no fields, is taken for the end of a file |
| `Join.Input` | src/cmd/join.c:145-171 | A line is read and its fields counted; the file position moves past it |
| `Join.SkipTwo` | src/cmd/join.c:109-112 | A line of the second file that precedes the rest of the first has no partner, and is written with -a2 |
| `Join.SkipOne` | src/cmd/join.c:113-115 | A line of the first file that precedes the rest of the second has no partner, and is written with -a1 |
| `Join.RowDone` | src/cmd/join.c:117-132 | The lines read again from bot2 up to the end of the group are all partners of a line |
| `Join.GroupDone` | src/cmd/join.c:133-138 | When the first file is past the group, nothing of it is left in either file |
| `Join.JoinGroup` | src/cmd/join.c:116-139 | The rewinds end, and a group of equal keys is joined in full |
| `Join.JoinFiles` | src/cmd/join.c:103-141 | For files sorted in the order of a dictionary, the pairs and unpairable lines of the first file are those of nested loops, in that order; the others are the unpairable lines of the second file; all are in the order of their keys; the program ends for any files |
| `Tsort.Sorter.NIndex` | src/cmd/tsort.c:115-136 | The node with a name is found, or added at the end and no other changed |
| `Tsort.Sorter.Present` | src/cmd/tsort.c:91-99 | Whether a node is on a predecessor list |
| `Tsort.Sorter.ReadPair` | src/cmd/tsort.c:57-70 | The graph is that of the pairs read: their items as nodes, an edge for each pair of different items, none twice |
| `Tsort.ReadAll` | src/cmd/tsort.c:54-70 | All pairs are read exactly if the number of items is even; nodes are in the order in which items were read first |
| `Tsort.SeenInOrder` | src/cmd/tsort.c:115-136 | Of two nodes, the item of the earlier one was read first |
| `Tsort.PredsAre` | src/cmd/tsort.c:63-69 | The predecessors listed for an item are exactly the other items of pairs with it |
| `Tsort.Sorter.AnyPred` | src/cmd/tsort.c:103-111 | Whether a node has an unprinted predecessor |
| `Tsort.Sorter.MarkFrom` | src/cmd/tsort.c:188-207 | If every unprinted node has an unprinted predecessor, the search from one finds a node on a cycle of unprinted nodes |
| `Tsort.Sorter.FindLoop` | src/cmd/tsort.c:166-182 | A node on a cycle of unprinted nodes is returned, the first one met twice on the walk from the first unprinted node along first unprinted predecessors, and all marks are as before |
| `Tsort.Sorter.Sweep` | src/cmd/tsort.c:73-80 | The first unprinted node without unprinted predecessors is found, or there is none |
| `Tsort.Sorter.Print` | src/cmd/tsort.c:71-86 | Every node is printed, each either the first one free of unprinted predecessors or, when none is free, on a cycle |
| `Tsort.RunsOnce` | src/cmd/tsort.c:71-86 | No node is printed twice |
| `Tsort.AcyclicRun` | src/cmd/tsort.c:71-86 | In an acyclic graph every predecessor is printed before its successor |
| `Tsort.CyclicRun` | src/cmd/tsort.c:71-86 | With a cycle in the graph, the search for one is reached |
| `Tsort.BreakIffCycle` | src/cmd/tsort.c:71-86 | The search for a cycle is reached exactly when the pairs have a cycle |
| `Tsort.PrintsItems` | src/cmd/tsort.c:71-86 | The items printed are those of the pairs, each once |
| `Tsort.RunIsTopological` | src/cmd/tsort.c:71-86 | Without cycles, the order printed is consistent with every pair |
| `Tsort.RunInOrder` | src/cmd/tsort.c:71-86 | Every line printed follows the rule: of the items without unprinted predecessors the one read first, or, if there is none, an item of a cycle, found by going back from the first item left, each time to the predecessor read last, until one is met again |
| `Tsort.LinesDetermined` | src/cmd/tsort.c:71-86 | The rule leaves no choice: outputs that follow it agree line by line, with cycles or without |
| `Tsort.TopologicalSort` | src/cmd/tsort.c:42-87 | For an even number of items: each printed exactly once, every line the next one by the rule that determines the output, in an order consistent with all pairs if there is one, with a warning exactly when there is none; an odd number is an error |
| `EdStore.AfterCovers` | src/cmd/ed.c:867-869 | The address after a line is even and leaves room for exactly its bytes, rounded up to four |
| `EdStore.AddressOf` | src/cmd/ed.c:879-880 | Block number and offset are those of the byte address, with or without the mark bit |
| `EdStore.Store.constructor` | src/cmd/ed.c:917-934 | A new store holds nothing and is coherent |
| `EdStore.Store.BlkWrite` | src/cmd/ed.c:908-915 | A block of the file is replaced or appended |
| `EdStore.Store.BlkRead` | src/cmd/ed.c:908-915 | A block of the file is read if the file has it |
| `EdStore.Store.GetBlock` | src/cmd/ed.c:872-906 | The buffer returned holds the block asked for, no block of the store changes whatever is flushed or read, and only a write to the block in the input buffer marks it changed |
| `EdStore.Store.PutChar` | src/cmd/ed.c:856-866 | A character goes to its byte address, into the next block after the last byte of one, and no earlier byte changes |
| `EdStore.Store.PutChars` | src/cmd/ed.c:856-866 | Characters go to consecutive byte addresses, across blocks, until the text ends or the store is full |
| `EdStore.Store.CopyLine` | src/cmd/ed.c:851-866 | A line and its null character are stored at the current address if they end before block 255, and nothing before that address changes |
| `EdStore.Store.PutLine` | src/cmd/ed.c:844-870 | The address returned is new and holds the text; all texts put before stay; the store is full exactly when the line would reach block 255; the input buffer is never written |
| `EdStore.Store.ReadLine` | src/cmd/ed.c:826-842 | The text held at an address is copied, across blocks |
| `EdStore.Store.GetLine` | src/cmd/ed.c:826-842 | The line at an address, marked or not, is the text that was put there |
| `EdStore.Replay` | src/cmd/ed.c:826-934 | Over every sequence of puts and gets from a new store, until it is full, each line is got back as it was put |
| `Grep.AcceptsStar` | src/cmd/grep.c:421-442 | A starred item accepts exactly up to the positions between its start and the first character it does not fit |
| `Grep.AcceptsChr` | src/cmd/grep.c:326-335 | A pattern that starts with a character matches only where it stands, so both shortcuts lose nothing |
| `Grep.MarkInMap` | src/cmd/grep.c:218-227 | Setting a bit of the map adds exactly one character to the class |
| `Grep.FlippedMap` | src/cmd/grep.c:228-232 | Flipping the map gives all characters of seven bits but those of the class and the null character |
| `Grep.MarkRange` | src/cmd/grep.c:221-226 | A range marks exactly its characters; one that ends before it starts only its first |
| `Grep.ReadClass` | src/cmd/grep.c:208-236 | The map of a class marks exactly the characters its text names, negation, ranges and errors included |
| `Grep.StarEmitted` | src/cmd/grep.c:195-200 | Setting the star bit of the last code makes its item starred and changes no other |
| `Grep.ResumeToken` | src/cmd/grep.c:178-281 | Reading from left to right with a pending last item agrees with the grammar that looks ahead for stars |
| `Grep.Pattern.EmitToken` | src/cmd/grep.c:183-281 | The code of one token is appended, or its error found |
| `Grep.Pattern.ReadToken` | src/cmd/grep.c:179-281 | One round of the loop: a token is read and its code appended, or the error found, and the rest of the pattern goes on as the grammar says |
| `Grep.Pattern.Compile` | src/cmd/grep.c:154-284 | A pattern compiles exactly when the grammar accepts it, and its codes are those of its items, though stars are applied by changing codes already emitted |
| `Grep.Pattern.InClass` | src/cmd/grep.c:379-384 | The bit test tells whether the class stands for a character |
| `Grep.Pattern.Advance` | src/cmd/grep.c:351-459 | Greedy backtracking finds a match exactly when there is one |
| `Grep.Pattern.Retreat` | src/cmd/grep.c:444-459 | Trying from the longest repetition down, with the shortcut on the next character, finds a match exactly when some repetition leads to one |
| `Grep.Pattern.Search` | src/cmd/grep.c:318-340 | A line is found exactly when some position, or the first one of an anchored pattern, begins a match |
| `Grep.FindIn` | src/cmd/grep.c:154-340 | For every pattern and line: compiling and searching finds the line exactly when a position begins a match of the pattern |
| `GrepText.ParsesExactly` | src/cmd/grep.c:154-284 | A pattern is read as a list of items exactly if it is written for them in the language of patterns, given as a relation between positions, and their codes fit the array; a circumflex at its start is no item |
| `GrepText.ClassMeans` | src/cmd/grep.c:208-236 | A class is accepted exactly if its bracket is closed; it has the characters that its text names by themselves, in ranges or as the start of one, or after a circumflex all others |
| `CanfieldCards.PileIsShort` | src/games/canfield.c:981-997 | A pile of the tableau, which has no card of the base rank, has at most twelve cards |
| `CanfieldCards.Compared` | src/games/canfield.c:952-978 | The comparisons of ranks and colours, with ace and king next to each other, are those of the rules |
| `CanfieldCards.NoSelfMove` | src/games/canfield.c:981-997 | No pile of the tableau can be built on itself |
| `CanfieldCards.MovedPartition` | src/games/canfield.c:556-565 | Moving a top card keeps every card in exactly one pile, once |
| `CanfieldCards.MovedLinks` | src/games/canfield.c:556-565 | The links and heads after a transit are again lists of the piles |
| `CanfieldCards.JoinedPartition` | src/games/canfield.c:1189-1198 | Moving a whole pile keeps every card in exactly one pile, once |
| `CanfieldCards.JoinedLinks` | src/games/canfield.c:1189-1198 | Linking the bottom of a pile to the top of another gives the list of both |
| `CanfieldCards.AllCards` | src/games/canfield.c:556-565 | The piles hold 52 cards together |
| `CanfieldCards.DealPartition` | src/games/canfield.c:650-690 | A fresh deal of a shuffled deck puts every card in exactly one pile |
| `CanfieldCards.DealLinks` | src/games/canfield.c:650-690 | The links of a fresh deal are lists of its piles |
| `Canfield.FreeFoundation` | src/games/canfield.c:607-645 | For a base card that is not on a foundation, one of the four foundations is still free |
| `Canfield.Game.Transit` | src/games/canfield.c:556-565 | The top card of one pile becomes the top of another, and all lists are again well linked |
| `Canfield.Game.FndBase` | src/games/canfield.c:607-645 | Base cards on top of a pile go to new foundations until its top is another card; all counters follow |
| `Canfield.Game.TabOk` | src/games/canfield.c:981-997 | A space takes the top of the stock, or of the talon when the stock is empty, and a pile takes a card one lower of the other colour; nothing else |
| `Canfield.Game.SimpleTableau` | src/games/canfield.c:1124-1151 | The card is moved exactly when the rules allow it, and lengths, bottoms and counters follow |
| `Canfield.Game.TabToTab` | src/games/canfield.c:1181-1202 | A pile goes onto another exactly when its bottom card may be built there, which is never the case for itself |
| `Canfield.Game.FindFoundation` | src/games/canfield.c:1243-1277 | The first foundation that takes a card, or none |
| `Canfield.Game.MoveToFound` | src/games/canfield.c:1236-1280 | The card goes up exactly when some foundation of its suit is one below it; counters and winnings follow |
| `Canfield.Game.TurnTalon` | src/games/canfield.c:755-763 | The talon turned over is the hand in the order dealt |
| `Canfield.Game.DealCards` | src/games/canfield.c:783-798 | Cards go from the hand to the talon one by one, so the last one dealt is on top |
| `Canfield.Game.MoveToTalon` | src/games/canfield.c:735-811 | Up to three cards are turned, from the talon turned over if the hand is empty; runs through the hand are counted, and the fourth one without a move between ends the game instead; base cards go up at once |
| `Canfield.Game.InitGame` | src/games/canfield.c:650-690 | The deal of a shuffled deck: all counters and bottoms agree with the piles |
| `Canfield.Game.MoveDealt` | src/games/canfield.c:890-891 | Base cards dealt to the tableau go to the foundations, pile by pile |
| `Canfield.Game.StartGame` | src/games/canfield.c:862-896 | From every shuffled deck the game starts in the opening of that deck, where all invariants hold |
| `Canfield.Game.Prepare` | src/games/canfield.c:1293-1294 | Cards are turned exactly if the talon is empty and the hand is not |
| `Canfield.Game.Ask` | src/games/canfield.c:1295-1325 | A game that is won is ended; the first command that plays starts it, and ends it if it is not to be inspected; otherwise the command stays as typed |
| `Canfield.Game.Move` | src/games/canfield.c:1327-1341 | A command moves exactly what the rules allow from its source to its destination |
| `Canfield.Game.Carry` | src/games/canfield.c:1326-1405 | Each command changes the piles as its move or the turning of cards does, and otherwise not at all; the game ends exactly on quitting, on not buying the hand, and on the fourth run through it; the count of runs is reset exactly by a move that is made |
| `Canfield.CarriedDone` | src/games/canfield.c:1342-1376 | A command ends the game exactly if it is to quit, to turn cards without buying the hand, or to run through the hand a fourth time |
| `Canfield.CarriedRuns` | src/games/canfield.c:1124-1280 | A command to move changes the table exactly if the rules allow the move, and then the count of runs starts again |
| `Canfield.RoundDone` | src/games/canfield.c:1292-1409 | When a round ends the game, in terms of the table and the command before it |
| `Canfield.Game.Step` | src/games/canfield.c:1292-1409 | Every round is the one of the rules for the table and the command, a game that is won ends, and all invariants are kept: partition into linked piles, counters, bottoms, ordered tableau without base cards, ordered foundations, no base card on the stock or talon |
| `Canfield.Game.Play` | src/games/canfield.c:1285-1410 | Whatever the player types, the table is the one that the rules give from the opening of the deck by the commands up to the first that ends the game, or all; all invariants hold, the counters account for 52 cards, and 52 cards are off exactly when all other piles are empty |
| `Canfield.CardsCounted` | src/games/canfield.c:607-690 | The counters add up to the whole deck |
| `FgrepWords.LongestIff` | src/cmd/fgrep.c:354-379 | Every failure state is the longest proper suffix that is a state, exactly when the drop to the first state skips none: a condition on the keywords alone |
| `FgrepWords.EasyTest` | src/cmd/fgrep.c:354-379 | Nothing is skipped if no string of two or more characters inside a keyword, away from its start, begins a keyword |
| `FgrepWords.RunSuffix` | src/cmd/fgrep.c:167-200 | The current state spells a suffix of what was read |
| `FgrepWords.RunLongest` | src/cmd/fgrep.c:167-200 | If nothing is skipped, the current state is the longest suffix of what was read that is a state |
| `FgrepWords.ReportsSound` | src/cmd/fgrep.c:167-200 | A text in which a final state is met contains a word |
| `FgrepWords.ReportsIff` | src/cmd/fgrep.c:167-200 | If nothing is skipped, a final state is met exactly when the text contains a word |
| `FgrepWords.DecidedByFew` | src/cmd/fgrep.c:167-200 | All texts are decided right exactly when the finitely many are that consist of a state without a word and a word |
| `FgrepWords.AllFoundIff` | src/cmd/fgrep.c:167-326 | Every line is found exactly when it contains a keyword, if and only if a condition on the list holds: those few texts are decided right, an empty keyword comes with keywords of one first letter only, and the keyword that is forgotten contains another |
| `FgrepWords.MissedLine` | src/cmd/fgrep.c:354-379 | With the keywords abcde, bcy and cdz, the line abcdz contains a keyword and is not found |
| `FgrepWords.ForgottenKeyword` | src/cmd/fgrep.c:268-275 | In the list of ab and a, without a newline after a, the keyword a gets no final state |
| `FgrepWords.FrontierNext` | src/cmd/fgrep.c:343-383 | The queue stays ordered by length, and all states up to the length of its first one have their failure states |
| `Fgrep.Automaton.Follow` | src/cmd/fgrep.c:294-307 | A character is followed through the chain of a state, or a node for it is ready to be filled, exactly when the longer string is no state yet |
| `Fgrep.Automaton.Enter` | src/cmd/fgrep.c:310-323 | The rest of a word gets nodes of its own: exactly the prefixes of the word become states, and the word is final |
| `Fgrep.Automaton.CGoto` | src/cmd/fgrep.c:265-326 | The states are exactly the prefixes of the keywords. Exactly the states of keywords are final, but for the last one if it has no newline and begins an earlier one without being an earlier one |
| `Fgrep.Automaton.FailOf` | src/cmd/fgrep.c:354-379 | The failure state is where the character leads from the failure state before, or else from the first state; finality is passed on; nothing else changes |
| `Fgrep.Automaton.QueueNext` | src/cmd/fgrep.c:338-383 | All states after a state, and no others, are queued and get their failure states |
| `Fgrep.Automaton.CFail` | src/cmd/fgrep.c:332-384 | The search through the trie ends; every node has the failure state of its string, and a state is final exactly when it is a word or its failure state is final |
| `Fgrep.Automaton.Next` | src/cmd/fgrep.c:176-199 | One character moves the automaton through links and failure states as its string demands, and this ends |
| `Fgrep.Automaton.Scan` | src/cmd/fgrep.c:167-230 | A line is reported exactly when a final state is met, or if there is an empty keyword and all others begin with one letter |
| `Fgrep.FindLine` | src/cmd/fgrep.c:98-120 | The whole program for a line: what is found contains a keyword; if nothing is skipped, a line is found exactly when it contains a keyword that was entered; on a good list, exactly when it contains a keyword |
| `Primes.WheelGap` | src/games/primes.c:37-41 | The wheel skips no number that is coprime to 210 |
| `Primes.NextFactor` | src/games/primes.c:125-132 | The trial factors are the numbers from 11 on that are coprime to 210, turn after turn of the wheel |
| `Primes.UntouchedIsPrime` | src/games/primes.c:121-132 | An odd number that no trial factor up to its root divides is prime |
| `Primes.PtGap` | src/games/primes.c:32-35 | The table of primes below 100 skips no prime |
| `Primes.FirstOffset` | src/games/primes.c:53-56 | The first multiple at or after the start is found |
| `Primes.Sieve` | src/games/primes.c:46-62 | The bits of exactly the multiples of a factor are added |
| `Primes.FillSieve` | src/games/primes.c:119-132 | With trial factors up to any v, bits are set exactly for the odd numbers of a block that have a divisor up to v |
| `Primes.RightIff` | src/games/primes.c:119-132 | If v is the root of the end of the block or one less, as a float root may be, all bits are right exactly when the square of a prime v + 1 is not in the block |
| `Primes.RootRight` | src/games/primes.c:119-132 | With the exact root, bits are set exactly for the composite ones among the odd numbers |
| `Primes.PrintBlock` | src/games/primes.c:137-141 | A block adds exactly its primes, in order |
| `Primes.PrintSmall` | src/games/primes.c:101-108 | For a start up to 97, exactly the primes below 100 from it on |
| `Primes.PrintPrimes` | src/games/primes.c:97-142 | For every start and number of blocks, the output is exactly the primes from the start to the end of the last block, increasing |
| `Tar.DataSize` | src/cmd/tar.c:648-679 | Whatever the reads return, as many blocks as the size asks for follow a header |
| `Tar.BlocksEnough` | src/cmd/tar.c:465-467 | The number of blocks computed for a file is the least that holds its bytes |
| `Tar.Writer.WriteTBuf` | src/cmd/tar.c:1203-1247 | Blocks are appended in order, through the buffer or as whole records, and the return value is what is missing for a record |
| `Tar.Writer.WriteRecord` | src/cmd/tar.c:1226-1232 | A whole record goes to the tape past the empty buffer, and the blocks stay in order |
| `Tar.Writer.PutEmpty` | src/cmd/tar.c:835-841 | An empty block is appended |
| `Tar.Writer.PutData` | src/cmd/tar.c:659-679 | The blocks read are written up to the number announced, and empty blocks fill up a file that got shorter |
| `Tar.Writer.PutFile` | src/cmd/tar.c:602-680 | A header and exactly its blocks are appended |
| `Tar.Writer.Create` | src/cmd/tar.c:412-414 | The tape starts with the entries in order and two empty blocks |
| `Tar.Reader.ReadTape` | src/cmd/tar.c:1161-1201 | Blocks are read in order, whatever the blocking factors of the tape and of the reader |
| `Tar.Reader.NextRecord` | src/cmd/tar.c:1179-1195 | The next record is read; the first one sets the blocking factor of the reader |
| `Tar.Reader.PassTape` | src/cmd/tar.c:458-471 | Exactly the blocks of an entry are passed |
| `Tar.Reader.Table` | src/cmd/tar.c:813-833 | The headers listed are those that lead from the start of the tape to the first block without a name |
| `Tar.ListsHeaders` | src/cmd/tar.c:429-471 | Listing an archive gives exactly the headers written before the first one without a name |
| `Tar.AllListed` | src/cmd/tar.c:429-471 | If every entry has a name, these are all headers, in order |
| `Tar.WriteAndList` | src/cmd/tar.c:602-680 | For any two blocking factors, entries and read results, writing and then listing an archive gives the headers written |
| `TarHeader.OctalRoundTrip` | src/cmd/tar.c:956-956 | The octal digits of a number have its value |
| `TarHeader.SizeReadsBack` | src/cmd/tar.c:945-958 | The size written in a header is the size read from it if and only if it has at most eleven octal digits, or the time that stands behind it happens to supply the digits lost |
| `TarHeader.TwelveDigits` | src/cmd/tar.c:956-957 | A size of twelve digits reads back exactly if the time has at most ten |
| `TarHeader.StandardIsFormat` | src/cmd/tar.c:32-45 | Read by the fields of the header structure, a block of null characters has no name, so it ends an archive |
| `TarHeader.FileBlocks` | src/cmd/tar.c:444-465 | For sizes and times of 32 bits, as many blocks follow a header as the size of the file asks for |

## Left out

- RegexpMatch.Executor.TryLoop: with a 16-bit counter the subject must be shorter than 65535 characters, since the counter cannot hold more; what happens behind a position that left the subject is not modelled.
- RegexpText.ParsesExactly: what the text of a class names is stated by `RegexpClass.ClassMeans` instead.
- RegexpPackage.RegexpExecute: null pointers and programs without the magic byte are left out; a program is one that the compiler emitted.
- RegexpCompiler.Compiler.RegClass: a class with a range that ends at 0377, on which the program does not end, is excluded by a precondition (the grammar gives it an outcome of its own, and `RegexpParser.RangeLoopEnds` says why).
- RegexpPackage.RegexpSize: the size of the fixed part of a compiled expression is a parameter; the counter is modelled with its 16 bits.
- RegexpPackage.RegexpCompile: the buffer must have room for what is emitted and for 16-bit offsets, as callers provide by asking for the size first.
- regexp dumping and printing of programs are not part of this model.
- Factor.SmallestFactor: numbers are those of a 32-bit int, for which the array of 24 digits is large enough.
- SortQuick.QuSort: lines are values, so the order among equivalent lines is only fixed by the comparison.
- SortNumeric.Compare: comparison by whole lines; fields, skipped blanks in keys, folding and ignored characters are left out, as is the setting of sort's options.
- SortMerge.Merge: without -u and -c, which compare with a buffer that is not set once one input is left.
- SortMerge.SortFiles: lines that are too long or lack a newline, temporary file names and output errors are left out.
- Join.JoinFiles: the splitting of lines into fields and the printing of output lines are left out; every line that is not blank must have its join field, since the program would compare the field of an earlier line.
- Tsort.TopologicalSort: the fixed size of the input words and running out of memory are left out.
- EdStore.Store.PutLine: errors of the temporary file are left out; ed's commands over its array of lines are not part of this model.
- Grep.Pattern.Compile: back references, word anchors and -w, -y, characters of eight bits in patterns, and patterns whose class ends in an unfinished range, which the program reads beyond; the code array is not bounded, though its overflow checks are there.
- Grep.Pattern.Search: reading lines into the buffer, and options of the output.
- Canfield.Game.Play: the display, the betting other than the winnings, card counting and the score file; the shuffle is any permutation.
- Fgrep.Automaton.Scan: -x, -i, the read buffer, and the sizes of the trie and the queue are left out.
- Primes.PrintPrimes: the square root is exact and the start does not wrap around, unlike the float and the unsigned int of the program (`Primes.RightIff` says what a root that is one too small does); the sieve is an array of bits; the endless loop is a number of blocks.
- SortJoin.SortAndJoin: sort's own choice and splitting of key fields; it is given the order of the join fields.
- Tar.Writer.Create: checksums, modes and owners in headers, directories, hard links and the update modes; how a block reads as a header is a parameter, for which `TarHeader.STANDARD` can be taken.
- TarHeader.SizeReadsBack: a scanned number is not cut to the 32 bits of a long, which matters only for sizes that do not read back.
- Tar.Reader.Table: tape errors and the -i flag are left out.
- The other commands, games and libraries of the repository, which are mostly input and output, are not part of this model.
