# A verified model of the algorithms of sqlglot

SQLGlot is a SQL parser, transpiler and optimizer. This project models the parts of it whose behaviour is hard
to see from one function body, in Dafny, and proves what they are relied on for. The algorithms keep the form they
have in the source: objects whose fields are updated in place are classes, loops are loops, and what is recursive there
is a function here. A simple specification stands beside each of them.

| files | what they model | main results |
|---|---|---|
| `Tsort` | the graph sort | it fails exactly on graphs with a cycle, and otherwise yields a topological order |
| `Trie`, `TimeFormat` | the trie as nested dictionaries, and the time format rewriter on top of it | the trie is its key set; exactly when the rewriter is a greedy longest match |
| `Schema` | the nested mapping of tables with its trie and its caches | they agree over any run of `add_table`; `find` is a linear scan |
| `Ast`, `AstRun` | expression nodes with their links to parent, argument and list position | when `set`, `append`, `replace` and `pop` keep the links, and that every run of them does |
| `AstTree`, `AstImages`, `AstBuild`, `AstWalk`, `AstTransform` | `transform`, which changes the tree under its own depth-first walk | it equals a recursive specification on trees, exceptions included |
| `AstCopy`, `AstBfs` | `__deepcopy__` with an explicit stack, `bfs` | the copy is new, linked and equal; the walks of the two pair each node with its own copy |
| `DiffTree`, `Lcs`, `Matching`, `EditScript` | the tree diff | greedy stability, first fit in walk order, fewest moves, every node accounted for exactly once |
| `PlanDag`, `Hoist` | query plans | acyclic graphs with inverse links; the worklist without a visited set; exactly when hoisting keeps the meaning of aggregates |
| `JsonPath`, `Numerals` | the JSON path parser and printers | exactly which printed paths are read back unchanged |
| `Connector`, `Decode`, `DecodeText`, `Logic` | condition builders and their iterative printer, DECODE as CASE | exactly when the text is read back as the same tree; meaning in three-valued logic |
| `Collections` | options, sequences and sets | |

Heap structures are described by flat invariants over a set of nodes. `Ast.Linked` says that every node found in an argument
names its holder, its key and its place. `AstTree.Labelled` gives every node the tree it stands for, as a value, so that
recursive specifications speak about trees and never about the heap. `Trie.Valid` ties the nested dictionaries to the set of
keys, `PlanDag.Graph` the steps to their order, and `Schema.MappingSchema.Valid` the mapping, the trie and the caches to
each other.

Some claims that one might make of the code are false of it. They are stated with the exact condition under which they hold:

- `set(key, None, index)` with a negative index shifts the index of the elements behind it wrongly, unless it names the first
  element: the loop starts at the slice of the list that is already shorter (`Ast.WhenPopKeepsLinks`, `Ast.NegativeIndexBreaks`).
- `replace` with a list, on a node that is a single value, replaces the holder and leaves the node in its slot without links
  (`Ast.WhenReplaceKeepsLinks`, `Ast.ReplacedByList`).
- `transform` ends with an exception when a list element is dropped in front of something that is not a node
  (`AstTransform.Transform`, `AstTransform.DropRaisesIf`, `AstTree.RaisesAtNumber`).
- `format_time` is not a longest match for every table: after it has fallen back to a shorter symbol it goes on in the middle of
  the text it rejected (`TimeFormat.LongestMatchIff`, `TimeFormat.Disagree`).
- A JSON path union loses members that are 0 or empty, except the first one; an empty key without brackets is an error, and a
  wildcard after a bare `..` becomes its name (`JsonPath.RoundTrip`, `JsonPath.LosesZero`, `JsonPath.RefusesEmptyKey`,
  `JsonPath.MergesWildcard`).
- Without `wrap`, conditions are not always read back as the tree that was printed (`Connector.UnwrappedReadBack`,
  `Connector.LostWithoutWrap`).
- `find` looks at no more parts of a table's path than the schema has levels: a more qualified name is cut off
  (`Schema.RightForWholePath`, `Schema.TooQualified`).
- Two nodes that are equal can still get an Update: exactly if their own arguments are not written the same, in case, or in that
  one has an argument None, False or [] where the other has another of these or none (`EditScript.UpdatedThoughEqual`,
  `EditScript.EqualButUpdated`).
- `diff` fails with a missing key exactly when a pre-matched node is not part of the trees or is of an ignored kind
  (`Matching.ChangeDistiller.Diff`, `Matching.PreMatchedIdentifiers`).
- Hoisting does not always keep the value of an aggregate: an operand gets the name of an earlier one that differs from it in the
  case of a raw text only, such as a key in a JSON path (`Hoist.HoistingKeepsMeaning`,
  `Hoist.Hoister.AggregationsKeepMeaning`, `Hoist.SharedName`).
- The CASE for a DECODE is not always read back as it was meant: a NOT gets no parentheses in front of `=` or IS, and reads on
  over them (`DecodeText.RewriteReadBack`, `DecodeText.NotIsMisread`).

The truth tables and the precedence of NOT, AND and OR are those of section 8.12 of ISO/IEC 9075:1992.

`dafny verify dfyconfig.toml` checks the whole project.

## Model

| member | source | states |
|---|---|---|
| Tsort.Tsort | sqlglot/helper.py:259-290 | the error occurs exactly when the graph (keys and mentioned dependencies) has a cycle; otherwise the order holds every node once, after all its dependencies, layer by layer in ascending order |
| Tsort.LayersAreTopological | sqlglot/helper.py:276-288 | peeling off all nodes without open dependencies, round after round, yields a topological order if it uses up the graph |
| Tsort.LayersOrCycle | sqlglot/helper.py:276-280 | the rounds use up the graph, or get stuck on nodes that lie on a cycle |
| Tsort.StuckMeansCycle | sqlglot/helper.py:279-280 | a non-empty set in which every node has a dependency inside the set contains a cycle (pigeonhole) |
| Tsort.TopologicalMeansAcyclic | sqlglot/helper.py:266-267 | a graph with a topological order has no cycle |
| Tsort.AddMissing | sqlglot/helper.py:271-274 | mentioned dependencies become nodes without dependencies, and nothing else changes |
| Tsort.SortedSeq | sqlglot/helper.py:288 | the members of a set, each once, ascending |
| Trie.Trie.SetDefault | sqlglot/trie.py:35-36 | one `setdefault` step keeps the nested dictionaries a tree whose paths and markers are those of the key set |
| Trie.Trie.Insert | sqlglot/trie.py:33-38 | exactly the given key is added |
| Trie.Trie.Extend | sqlglot/trie.py:31-40 | after any number of calls the trie stands for all keywords inserted so far |
| Trie.Trie.InTrie | sqlglot/trie.py:69-81 | the answer is that of the key set, from the root or from any subtrie; a successful search ends at the subtrie of the key |
| Trie.PrefixMeansProper | sqlglot/trie.py:65-67 | EXISTS exactly for inserted keys, PREFIX exactly for proper prefixes of inserted keys that were not inserted themselves |
| Trie.SubtrieIsResidual | sqlglot/trie.py:61-63 | a subtrie answers for exactly the keys that continue its path |
| Trie.StepwiseLookup | sqlglot/trie.py:72-81 | looking a key up piece by piece is looking it up whole |
| TimeFormat.FormatTime | sqlglot/time.py:26-61 | the loop ends although its end index moves backwards; its chunks spell the input, the result is what the table makes of them, and the empty text gives None |
| TimeFormat.RunConcat | sqlglot/time.py:37-59 | the chunks of every run concatenate to the text that is left |
| TimeFormat.LongestMatchIff | sqlglot/time.py:37-59 | for every table on these keys and every text the result is greedy longest-match rewriting exactly if no string between a key and a longer key is missing and no key hides in the tail of a proper key prefix that has no key as a prefix |
| TimeFormat.WholeKey | sqlglot/time.py:37-61 | under that condition a text that is a key becomes its entry |
| TimeFormat.IdentityTable | sqlglot/time.py:37-61 | a table that maps its keys to themselves leaves every text as it is |
| TimeFormat.Disagree | sqlglot/time.py:41-52 | otherwise there is a table and a text on which they differ |
| TimeFormat.RunIsGreedy | sqlglot/time.py:37-59 | the run from any window of the loop, when the condition holds |
| Lcs.Compute | sqlglot/diff.py:446-468 | the result is picked by an alignment of the two sequences, and no alignment is longer, for an arbitrary relation `equal` |
| Lcs.EntryIsLongest | sqlglot/diff.py:459-466 | every table entry is at least as long as any alignment of its prefixes (exchange argument: taking a related pair at the ends loses nothing) |
| Lcs.EntryAligns | sqlglot/diff.py:459-466 | every table entry is picked by an alignment |
| DiffTree.Bfs | sqlglot/expressions.py:556-565 | the breadth-first walk meets exactly the nodes of the tree, in the order of a queue |
| DiffTree.WalkByLevels | sqlglot/expressions.py:556-565 | the order of the queue is level by level: the nodes of a level, then all their children in order |
| DiffTree.IndexOf | sqlglot/diff.py:198-203 | the index holds exactly the nodes that are not ignored, under their identities |
| DiffTree.OrderedIds | sqlglot/diff.py:288-293 | the identities in a set, each once, in walk order |
| DiffTree.IdsInOrder | sqlglot/diff.py:288-293 | of two identities that are kept, the one that the walk comes to first stands first |
| DiffTree.SameAsItself | sqlglot/expressions.py:129-144 | equality, which looks at kinds, argument names and places, and at arguments without case, holds between a tree and itself |
| DiffTree.EqualLeaves | sqlglot/expressions.py:132-138 | equality does not tell two argument lists apart exactly if each name has on both sides None, False, [] or nothing, or the same text, value or list up to case |
| DiffTree.SameIff | sqlglot/expressions.py:129-144 | two nodes are equal exactly if they are of one kind, their own arguments are alike, and the children in each argument are equal one by one |
| DiffTree.LeavesInPreorder | sqlglot/diff.py:392-401 | the leaves are the nodes without children in the diff, from left to right |
| DiffTree.LeavesIff | sqlglot/diff.py:392-401 | exactly the nodes all of whose children are ignored, reached without passing an ignored node |
| Matching.PopMin | sqlglot/diff.py:352 | the candidate with the smallest key is removed; keys are distinct because of the insertion counter, so trees are never compared |
| Matching.ChangeDistiller.PushCandidates | sqlglot/diff.py:330-347 | exactly the pairs of leaves of the same type and sufficient similarity are pushed, with distinct keys |
| Matching.ChangeDistiller.CandidatesAreIndexed | sqlglot/diff.py:330-347 | the ends of all candidates are indexed nodes, unless a root itself is ignored |
| Matching.ChangeDistiller.ComputeLeafMatchingSet | sqlglot/diff.py:329-361 | exactly pairs of similar leaves of one type with free ends are matched, one-to-one; a pair that is not shares an end with a matched pair that is more similar, or as similar with more parents in common, or has as many of these and comes first in the order of the leaves |
| Matching.StablePop | sqlglot/diff.py:351-359 | popping in key order keeps the choice stable, whether or not the candidate is taken |
| Matching.ChangeDistiller.ComputeMatchingSet | sqlglot/diff.py:284-327 | the matching is one-to-one and together with the unmatched sets it shares out both indexes; beyond the leaves it is the first fit of the sources in walk order to the targets in walk order, and at the end no two unmatched nodes are similar |
| Matching.ChangeDistiller.SimilarIff | sqlglot/diff.py:299-317 | two inner nodes of one type are similar exactly if four fifths of the leaves of each are matched to leaves of the other, or they are similar as texts and it is two fifths, or the share `t` where both have more than four leaves |
| Matching.ChangeDistiller.FirstFitIsGreedy | sqlglot/diff.py:295-325 | first fit: a similar pair is matched, or its source took an earlier target, or its target went to an earlier source |
| Matching.ChangeDistiller.MatchingIsConsistent | sqlglot/diff.py:204-209 | with injective pre-matchings the joint matching is a partial bijection in step with the unmatched sets |
| Matching.ChangeDistiller.Diff | sqlglot/diff.py:186-209 | the only failure is a pre-matched node that is not indexed; without `delta_only` every indexed node occurs exactly once on its side of the script |
| Matching.PreMatchedIdentifiers | sqlglot/diff.py:198-209 | matching the identifiers of two columns beforehand makes the diff fail |
| EditScript.LcsMeansFewest | sqlglot/diff.py:264-280 | moving the matched children outside a longest common subsequence leaves the others in target order, and no smaller set of moves does |
| EditScript.GenerateMoveEdits | sqlglot/diff.py:255-282 | the moves are those of such a fewest set; a lookup can only fail for a matching outside the indexes |
| EditScript.EditPair | sqlglot/diff.py:217-251 | the edits of one matched pair: the moves it needs, then an Update exactly if it changed, else a Keep unless only the delta is wanted |
| EditScript.EditsOfPair | sqlglot/diff.py:217-251 | of a matched pair an Update is reported exactly if the nodes differ and are updatable or their own arguments are written differently, and otherwise a Keep unless only the delta is wanted; of two equal nodes a Move exactly if their parents are not matched to each other and not both missing |
| EditScript.UpdatedThoughEqual | sqlglot/diff.py:222-246 | for two equal nodes that are matched, the script has an Update exactly if their own arguments are not written the same; they can differ in case, or in that one has None, False or [] where the other has another of these or no argument |
| EditScript.EqualButUpdated | sqlglot/diff.py:219-246 | nodes that are equal and yet need an Update: a name in another case, and an argument False that the other lacks |
| EditScript.GenerateEditScript | sqlglot/diff.py:211-253 | a lookup fails exactly if a matched node is not indexed; otherwise every unmatched node and every matched pair is reported, exactly once |
| EditScript.ScriptAccountsForAll | sqlglot/diff.py:211-253 | without `delta_only` the source ends of the script are the source index, each node once, and the target ends the target index |
| Ast.Node.constructor | sqlglot/expressions.py:116-127 | all arguments are linked to the new node |
| Ast.Node.SetParent | sqlglot/expressions.py:403-413 | a node, or each node of a list, names its holder, key and place |
| Ast.Node.Set | sqlglot/expressions.py:359-401 | in all cases of index, overwrite, list and None: an insertion puts the value in front of the named element, a list stands in its place (one further left for a negative index), a removal closes the gap, and nothing else changes; a new argument comes last; the exception exactly if an index meets a single value that is not empty, or the loop after a removal something that is not a node; all links hold afterwards exactly if that loop moved the nodes behind the removed element and no others |
| Ast.Node.PopAt | sqlglot/expressions.py:376-384 | removal from a list: how far the loop gets, the list afterwards, and exactly when all links hold |
| Ast.WhenSetRaises | sqlglot/expressions.py:371-384 | `set` ends with an exception exactly if an index meets a node, a value that is not empty, or a text that is long enough, or in a removal |
| Ast.WhenPopRaises | sqlglot/expressions.py:380-384 | a removal does exactly if another element from the removed one on, or from the one before it with a negative index, is not a node |
| Ast.WhenPopKeepsLinks | sqlglot/expressions.py:376-384 | without an exception the links survive exactly if the index is not negative or names the first element; with an index that is not negative exactly if no node stands behind the element that ended the loop |
| Ast.NegativeIndexBreaks | sqlglot/expressions.py:376-384 | two nodes and the index -1: the first one is left with the index -1 |
| Ast.Node.Append | sqlglot/expressions.py:343-357 | the list grows by the value, a scalar or missing argument becomes a list first, and all links hold |
| Ast.Node.Replace | sqlglot/expressions.py:664-703 | for every receiver, also one that has been displaced from its slot: which slot is set, that nothing else changes, when it ends with an exception, that the receiver is detached otherwise, and exactly when all links hold |
| Ast.WhoseSlot | sqlglot/expressions.py:683-701 | the slot that is set is that of the receiver, unless a list meets a single node there; then it is the one for its holder |
| Ast.WhenReplaceKeepsLinks | sqlglot/expressions.py:683-703 | for a receiver in its slot the links survive exactly if nothing is to be done, or it replaces itself, or no list stands in for a single value, the value does not hold it, and its slot is set without harm |
| Ast.ReplacedByList | sqlglot/expressions.py:689-701 | a single argument of a root, replaced by a list, stays in its slot without links |
| Ast.Node.Pop | sqlglot/expressions.py:705-713 | the slot that the receiver links to loses its element, the receiver is detached unless an exception comes first, and exactly when all links hold |
| AstRun.Step | sqlglot/expressions.py:343-401 | one operation with a detached value, on any node: what it changes, and that all links hold afterwards exactly if it is not one of the breaking cases; the links to parents still come to an end |
| AstRun.StepIsSet | sqlglot/expressions.py:359-401 | each operation but `append` puts its value in one slot, as `set` does, and changes no other argument of any node |
| AstRun.Run | sqlglot/expressions.py:343-413 | every sequence of `set`, `append`, `replace` and `pop` with detached values, on held and displaced nodes alike, does step by step what the operations say and keeps all links, up to the first operation that breaks them or has another value |
| AstTree.RaisesAtNumber | sqlglot/expressions.py:376-384 | a list of a node that is dropped and a number: the walk ends with an exception |
| AstTree.KeepingAll | sqlglot/expressions.py:647-656 | a function that keeps every node leaves the tree as it is |
| AstTree.ArgsTransform | sqlglot/expressions.py:647-653 | replacing each child by its image is transforming the children's trees |
| AstImages.ListSlot | sqlglot/expressions.py:376-394 | a visited list element gives way to its image at its present place, also after earlier siblings were removed |
| AstImages.SlotImage | sqlglot/expressions.py:652-653 | setting the slot of a visited node to its image is recording the image |
| AstBuild.BuildTree | sqlglot/expressions.py:116-127 | new nodes for a new tree around the visited node, linked and labelled, with nothing else touched |
| AstTransform.KeepStep | sqlglot/expressions.py:647 | a kept node puts its children, unvisited so far, on the stack |
| AstTransform.Locate | sqlglot/expressions.py:648 | the links of every waiting node lead to its present slot, in a node that was kept |
| AstTransform.DropRaisesIf | sqlglot/expressions.py:376-384 | dropping the visited node ends with an exception exactly if its list, as it was, holds something that is not a node behind it |
| AstTransform.KeepTrouble | sqlglot/expressions.py:646-653 | under a kept node the walk ends with an exception exactly if it does at or under one of the children |
| AstTransform.WalkIsOver | sqlglot/expressions.py:655-656 | when the stack is empty every node stands for its transformed tree |
| AstTransform.Transform | sqlglot/expressions.py:628-656 | for every tree: the walk over the tree it changes ends, with an exception exactly if the recursive specification says that a list element is dropped in front of something that is not a node, and otherwise with the tree of the recursive specification, or the failed assertion exactly if `fun` drops the root; all links hold |
| AstTransform.TransformCopy | sqlglot/expressions.py:647-656 | the default, on a copy: the same results and exceptions, and the original is not written to |
| AstWalk.IterExpressions | sqlglot/expressions.py:424-433 | the children in argument order, lists unfolded |
| AstWalk.KidsInOrder | sqlglot/expressions.py:424-433 | the children in earlier arguments come first, and those in a list in its order |
| AstBfs.Bfs | sqlglot/expressions.py:556-565 | the walk meets exactly the nodes reachable from the root, and each once if all links hold |
| AstBfs.WalkByLevels | sqlglot/expressions.py:556-565 | the walk goes level by level |
| AstCopy.DeepCopy | sqlglot/expressions.py:279-311 | the stack empties, also for shared subtrees; all nodes of the copy are new and linked, each has an original of its kind and holds, place by place, copies of what that holds; it stands for the same tree, and the original is not written to |
| AstCopy.OriginalWalk | sqlglot/diff.py:108-116 | the walk of the copy, each node replaced by its original, is the walk of the original |
| AstCopy.NodeMappings | sqlglot/diff.py:108-133 | exactly the nodes reachable from the source have a partner, which is a copy of the node itself, also for shared nodes; if all links of the source hold, every reachable copy is the partner of its original |
| Schema.MappingSchema.constructor | sqlglot/schema.py:122-130 | the trie holds exactly the reversed paths of the tables in the mapping |
| Schema.MappingSchema.Depth | sqlglot/schema.py:456-460 | the cached depth is the nesting of the tables |
| Schema.MappingSchema.SupportedTableArgs | sqlglot/schema.py:139-151 | the cached argument names are those of the nesting; the error for more than three levels |
| Schema.MappingSchema.Find | sqlglot/schema.py:156-202 | the answer is that of a linear scan over all tables: none, the columns of the only one, or ambiguity |
| Schema.RightForWholePath | sqlglot/schema.py:177 | the answer is right for the whole path of the table exactly if the schema has as many levels, or no table goes by the part that is looked at |
| Schema.TooQualified | sqlglot/schema.py:177 | a schema and a table of another database for which it is not |
| Schema.MappingSchema.AddTable | sqlglot/schema.py:279-318 | exact errors; without an error the table has exactly the columns given, or without columns those it had, or none; every other table is as before; mapping, trie and caches agree again |
| Schema.MappingSchema.Run | sqlglot/schema.py:279-318 | after any run of `add_table` calls, failing ones among them, mapping, trie and caches agree, and the last successful call that names a table with columns decides its columns; without one it has those it had, or none |
| Schema.RunDecides | sqlglot/schema.py:297-318 | the same for the tables as values; a call succeeds exactly if it names a table at the nesting of the schema or of the first call, of at most three levels |
| Schema.RunKeepsColumns | sqlglot/schema.py:311-318 | a run does not touch tables it does not name, and never empties the columns of any |
| Schema.FlattenFinds | sqlglot/schema.py:528-541 | in a uniform mapping the flattened paths are exactly the paths of tables |
| Schema.FlattenRepeatsNothing | sqlglot/schema.py:528-541 | the flattened paths of a uniform mapping are pairwise different |
| Schema.GetAfterSet | sqlglot/schema.py:570-604 | after `nested_set` the path has the new value and every other path of the same length its old one |
| Schema.SetIsUniform | sqlglot/schema.py:570-604 | `nested_set` keeps a mapping uniform |
| Schema.UniformDepth | sqlglot/helper.py:477-484 | `dict_depth` looks at the first entries only, which is enough in a uniform mapping |
| Schema.FlattenNode | sqlglot/schema.py:180 | flattening a subtrie yields exactly the ends of keys below it, each once |
| JsonPath.Parse | sqlglot/jsonpath.py:40-206 | the parser ends on every token list and agrees with the grammar, errors included |
| JsonPath.KeyOfNames | sqlglot/jsonpath.py:149-169 | names in a row are read as one key, the concatenation of their texts, at the start and behind one or two dots |
| JsonPath.IndexReads | sqlglot/jsonpath.py:101-106 | the tokens of an index, negative or not, are read as this index |
| JsonPath.SliceReads | sqlglot/jsonpath.py:110-118 | the tokens of a slice are read as its start, end and step |
| JsonPath.UnionReads | sqlglot/jsonpath.py:120-147 | the tokens of a name and an index in brackets are read as their union |
| JsonPath.Parser.ParseLiteral | sqlglot/jsonpath.py:79-108 | literals, negative numbers, scripts and filters are read as the grammar says, with the index left right behind them |
| JsonPath.Parser.ParseSlice | sqlglot/jsonpath.py:110-118 | a literal, or a slice with any of its bounds omitted, is read as the grammar says |
| JsonPath.Parser.ParseBracket | sqlglot/jsonpath.py:120-147 | a bracket is read as the grammar says: false members after the first are dropped, and the last one read decides the kind of a single one |
| JsonPath.RoundTrip | sqlglot/jsonpath.py:171-225 | for every path of printable parts, what parsing the printed path yields, errors included; the path comes back unchanged exactly if it is canonical: no union has a false member after its first or fewer than two, no empty key is printed without brackets, no subscript holds a name or script, no selector anything else, no second root, and no wildcard follows a bare `..` |
| JsonPath.LosesZero | sqlglot/jsonpath.py:125-141 | a printed union of 1 and 0 is read back as the index 1 |
| JsonPath.RefusesEmptyKey | sqlglot/jsonpath.py:189-194 | an empty key that is printed without brackets is refused |
| JsonPath.MergesWildcard | sqlglot/jsonpath.py:184-190 | a wildcard behind a bare `..` is read back as its name |
| JsonPath.RereadIsSame | sqlglot/jsonpath.py:125-204 | what is read back is never longer than the path, and equals it exactly if every part stays as it is and no wildcard is taken for the name of a bare `..` |
| JsonPath.PartReads | sqlglot/generator.py:4380-4398 | every printed segment is read back in front of any other, as itself, as what is left of a union, or as the error the parser reports |
| JsonPath.BracketReads | sqlglot/generator.py:3063-3082 | a printed list of members is read back without its false members after the first |
| Numerals.NumberRoundTrip | sqlglot/jsonpath.py:101-106 | an index survives printing and reading |
| Connector.Combine | sqlglot/expressions.py:7628-7648 | conditions are chained from the left, each wrapped if it is a connector; the error for no condition |
| Connector.CombinedWrapsConnectors | sqlglot/expressions.py:7628-7660 | combining puts parentheses around connectors only |
| Connector.ConnectorSql | sqlglot/generator.py:3328-3362 | the text of the iterative printer is the naive infix text |
| Connector.Sql | sqlglot/generator.py:3253-3264 | the text of a whole condition, with parentheses and NOT around connectors, is its naive infix text |
| Connector.ShownAs | sqlglot/generator.py:3253-3264 | the texts of AND, OR, NOT and parentheses |
| Connector.TextOfTokens | sqlglot/generator.py:3253-3264 | the infix text is the text of the tokens that the reader gets |
| Connector.ReadBack | sqlglot/expressions.py:7655-7660 | a reader that binds NOT before AND before OR, from the left, recovers a tree exactly if every operand that needs parentheses has them |
| Connector.UnwrappedReadBack | sqlglot/expressions.py:7628-7660 | without `wrap`, the conditions that are read back: each is readable, for AND the first is no OR and the others no connectors, for OR the others no OR |
| Connector.LostWithoutWrap | sqlglot/expressions.py:7628-7660 | (a OR b) AND c, built without `wrap`, is read back as a OR (b AND c) |
| Connector.BuiltReadable | sqlglot/expressions.py:8053-8167 | every nesting of the builders yields such a tree |
| Connector.BuiltWrapsConnectors | sqlglot/expressions.py:8053-8167 | so does every nesting of the builders |
| Connector.BuiltMeans | sqlglot/expressions.py:8053-8167 | the tree that is built and read back means, in three-valued logic, what the nested calls say |
| Decode.DecodeCase | sqlglot/generator.py:5108-5132 | the CASE has the value of a first match with null-safe equality and an odd last argument as default, for every argument list and row; the error for no argument |
| Decode.ConditionHolds | sqlglot/generator.py:5115-5129 | the condition for a search value is true exactly if the two values are the same, null or not |
| DecodeText.ReadBack | sqlglot/parser.py:866 | the tokens of a tree are read back as this tree exactly if every operand that needs parentheses has them: also a NOT that, at the end of a left operand, would read on over `=`, IS or another operator |
| DecodeText.RewriteReadBack | sqlglot/generator.py:5108-5132 | for all readable arguments the tokens of the CASE are read back as its tree exactly if there are fewer than three, or neither the compared expression nor a search value is a NOT, and the compared expression is no equation or IS with an open NOT at its end that is put in front of `=` or IS without parentheses |
| DecodeText.NotIsMisread | sqlglot/expressions.py:896-904 | DECODE(NOT a, b, 1) is printed as text that is read as another tree, with another value when both columns are null |
| PlanDag.FromQuery | sqlglot/planner.py:96-241 | the step is the plan of the query: the scan of a table depends exactly on the last visible CTE of its name, or on nothing if there is none; joined sources and the body are joined; grouping puts an aggregate, sorting a sort, and DISTINCT an aggregate on top, in this order and only if needed; every CTE that a source sees and names can be reached; a step depends on earlier ones only, and `dependents` is the inverse of `dependencies` |
| PlanDag.FromSource | sqlglot/planner.py:305-323 | the scan of a table depends exactly on the CTE that is visible under the name of the table, whatever its alias; a derived table is the plan of its query under the alias |
| PlanDag.FromJoins | sqlglot/planner.py:335-351 | a join, made before its sources, depends exactly on them |
| PlanDag.FromSetOperation | sqlglot/planner.py:428-453 | a set operation depends on its two sides, which have names |
| PlanDag.QueryReaches | sqlglot/planner.py:86-103 | from the step of a query dependencies lead to every CTE that its sources name, and past its own CTEs to all that these need from outside |
| PlanDag.QueryOk | sqlglot/planner.py:96-241 | every step comes after its dependencies: one for sorting and grouping, two for a set operation, at least one for a join |
| PlanDag.Plan.LeavesAreScans | sqlglot/planner.py:35-37 | a step without dependencies is a scan |
| PlanDag.Enumerate | sqlglot/planner.py:20-31 | the worklist without a visited set empties; the result has exactly the steps reachable from the root, with exactly their dependencies |
| PlanDag.StepDrops | sqlglot/planner.py:23-29 | each turn makes the worklist smaller, read as a binary number over the steps in order |
| PlanDag.Plan.Dag | sqlglot/planner.py:17-33 | the graph returned has exactly the steps reachable from the root with exactly their dependencies, on the first call and on later ones |
| PlanDag.Plan.NamedCtesInDag | sqlglot/planner.py:17-33 | the graph holds every CTE that a source of the query names |
| Hoist.HoistingKeepsMeaning | sqlglot/planner.py:130-144 | the rewritten expression on rows with the named operands has the value of the original over all groups of rows and for all functions on terms, exactly if each of its operands is the one that its name was given to |
| Hoist.SharedName | sqlglot/expressions.py:129-144 | the operands JSON_EXTRACT(x.j, '$.A') and JSON_EXTRACT(x.j, '$.a') share a name, and a sum of the second changes its value |
| Hoist.EqualIffAlike | sqlglot/expressions.py:129-144 | the equality that dictionaries use tells exactly those expressions apart that are not alike |
| Hoist.NamesAreDistinct | sqlglot/planner.py:128-140 | two operands are replaced by the same column exactly if they are alike: the same constructors, columns, literals and classes, and raw texts that differ in case only |
| Hoist.RewriteStays | sqlglot/planner.py:139-142 | names given later change nothing in what was rewritten before |
| Hoist.FindAggs | sqlglot/planner.py:131 | exactly the aggregates that stand in the expression |
| Hoist.HoistedIff | sqlglot/planner.py:135-138 | the operands that get names are what the aggregates are of, out of their parentheses, but for columns |
| Hoist.Hoister.ExtractAggOperands | sqlglot/planner.py:130-144 | over all calls that share one operand map every aggregation stays the rewritten form of what was asked for; an expression is a new key unless it is alike to one as it was hashed and as it is now |
| Hoist.Hoister.Run | sqlglot/planner.py:130-144 | any number of calls, with every result the rewritten form under the names at the end |
| Hoist.Hoister.AggregationsKeepMeaning | sqlglot/planner.py:146-148 | after any number of calls all aggregations computed from the named operands have the values of the originals, for all rows and functions on terms, exactly if no two operands are alike and different |
| Hoist.Hoister.AnswersKeepMeaning | sqlglot/planner.py:132-133 | every expression that was asked for has, under its key, its own value exactly if, besides, no two expressions whose aggregates have only columns as operands are alike and different |
| Hoist.Hoister.AggregationMeans | sqlglot/planner.py:146-148 | if no two operands are alike and different, every aggregation keeps its value, for values of any type |

## Left out

- AstTransform.Transform: `fun` is a function of the subtree it visits, answering with the node itself, None, or a new tree that
  holds the node at most once. Functions that keep other nodes, or change nodes elsewhere, are not modelled.
- AstTransform.TransformCopy: requires that no argument is called by the empty string, which the walk would skip.
- Ast.Node.Set: an element None inside a list, which the original takes for a missing element, is not modelled; values that are
  not nodes are texts, numbers and flags; a new value must not stand anywhere else in the trees.
- Ast.Node.Replace: ends only where a list does not climb in a circle, which heights for the links to parents express.
- AstRun.Run: `set`, `append` and `replace` are given detached values, the roots of other trees, each once; a node may also
  replace itself. The run stops before any other value.
- AstCopy.DeepCopy: comments, types, metadata and cached hashes are not part of a node.
- Matching.ChangeDistiller.ComputeLeafMatchingSet: bigrams, similarity scores and the similarity of parents are arbitrary functions,
  and the heap is a list from which the smallest key is removed.
- Matching.ChangeDistiller.Diff: pre-matchings are a dictionary that matches no target twice; caching and evicting hashes around
  the diff is not modelled.
- EditScript.EditPair: a list holds nodes only or none; case is that of ASCII letters; numbers and flags are never equal. The
  subclasses of updatable types are the four that the source defines.
- EditScript.GenerateEditScript: the order of edits that come from iterating over sets and dictionaries is left open; a node may be
  moved by its parent and by its own pair, so moves are not unique.
- Schema.MappingSchema.AddTable: tables and columns come as normalised names, and `match_depth` is on; without it tables of
  different depth can overwrite each other's columns.
- Schema.MappingSchema.constructor: the checks and the merging of names in `_normalize`, `visible`, column types and their cache
  are not modelled; the mapping is empty or has all its tables at one depth.
- JsonPath.Parse: works on tokens; the text of consecutive names is joined without the blanks between them, and scripts and filters
  keep their tokens instead of a slice of the text.
- JsonPath.RoundTrip: a script or filter has no brackets inside and comes last in its brackets; quoting and escaping of names as
  text is not modelled.
- Connector.ConnectorSql: pretty printing, comments, XOR and connectors with a list of expressions are not modelled.
- DecodeText.ReadBack: the reader takes all binary operators but `=`, IS, AND and OR to bind equally, and more than these; it
  does not know IS NOT, other CASE forms, functions or signs, and reads any operand behind IS.
- PlanDag.FromQuery: expressions, conditions, limits and projections of steps are not modelled.
- PlanDag.Plan.Dag: the graph does not change after the enumeration has been kept.
- Hoist.Hoister.ExtractAggOperands: no aggregate inside an aggregate, no `*` and no DISTINCT as an operand, and no column of the
  query called like an operand without a table. A class has at most one raw text; whether identifiers are quoted is left out.
- Equality of expressions is equality of what is hashed; collisions of hashes are not modelled.
- The lexer and the SQL parser, the text generator with its dialects, and the optimizer.
- The HTTP, Streamlit and Thrift services, logging, `guardrail`, `lineage.py` and `serde.py`: input and output, or easy next to the rest.
