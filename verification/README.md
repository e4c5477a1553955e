# Verification of the LEMON parser generator and eight small components

This project models, in Dafny, the LALR(1) parser generator LEMON (`lemon.c`) together with the table-driven
parser it emits (`lempar.c`), and eight smaller stateful components of the same repository.  Everything is
verified by `dafny verify dfyconfig.toml`.

## What is modelled

**LEMON.**  A grammar (module `Grammars`) is a list of rules over numbered symbols; `Derives` is rewriting of
sentential forms, and `Sentence` is what the start symbol derives.  Each pass of the generator is a module:

| pass | modules |
|---|---|
| nullability and FIRST sets | `FirstSets` |
| configurations, closures, states of the LR(0) collection | `Configs`, `Closures`, `Collection`, `Bases`, `Shifting`, `Backlinks`, `States`, `Canonical`, `Discovery` |
| propagation of look-aheads | `Follow` |
| actions and conflicts | `ActionLists`, `Resolve`, `Verdicts`, `Outcomes`, `Reductions`, `Rulings` |
| default reductions, renumbering | `Compress`, `Report` |
| row displacement and the emitted arrays | `Acttabs`, `Runs`, `PackedRows`, `Packing`, `Emission` |
| a grammar for which the arrays are wrong | `Forked`, `Misreading` |
| the LALR(1) automaton, and that it is what the generator builds | `Lalr`, `Propagation`, `Clashes`, `Realization` |
| what the look-aheads mean in derivations | `Contexts` |
| what default reductions are, and what they do not change | `Chosen`, `Defaults` |
| when the driver comes to an end | `Leftmost`, `Reading`, `Building`, `Towers`, `Spinning`, `Termination` |
| a grammar for which it does not | `Endless`, `Looping` |
| merge sort of linked lists | `Msorts` (in the heap), `Sorting` (what its result must be) |
| the emitted parser | `Lempar` |
| small things shared | `Options`, `Numbers` |
| from pass to pass | `Automata`, `Soundness`, `Trees`, `Completeness`, `Sufficiency`, `Determinacy`, `Generation` |

`Lalr` defines the LALR(1) automaton from the grammar alone, with no mention of how it is computed: its states are the
kernels in every family closed under goto, and its look-aheads are those that are generated spontaneously or
propagated. `Contexts.LookaheadsAreContexts` says what they are in terms of derivations: t is a look-ahead of an item
in a state if and only if some prefix leads to the state and is left alone by a derivation in which the rule of the
item is expected at its place and t can come right behind it. (Where a grammar has symbols that derive no token
string, these can be more than the look-aheads of the LR(1) automaton.) A grammar is `Lalr1` if no state calls for two
actions on one look-ahead.

The end-to-end theorem is the contract of `Generation.Generate`, for every well-formed grammar whose start symbol is on
no right-hand side:

- the rows of actions arrived at realize the LALR(1) automaton: the same states, each once, and on every symbol one of
  the actions called for, or none if none is called for, with default reductions only where they are allowed;
- where a state calls for several actions on a terminal, the row answers with the one that prevails by the declared
  precedences: the shift if no rule beats it, otherwise the first rule of the highest precedence, as
  `Verdicts.Prevails` says in terms of the rules alone; of several shifts it is that of the last symbol;
- the number of conflicts is the number of rules that precedences do not keep apart from what prevails over the rules
  before them, and of shifts beyond the first on a terminal, over all states;
- states are found depth first, over the symbols of a state in the order of its items, and renumbered by their gotos
  and their actions on terminals;
- the default of a state is the rule it reduces by on most tokens, of several such rules the one that it reduces by on
  the lowest token, and takes the place of its reductions;
- nothing is left open by all this: the grammar and the precedences determine the rows, the numbers of the states, the
  number of conflicts and every entry of the arrays (`Generation.GeneratedOnce`);
- a parser that follows these rows accepts nothing but sentences, whatever precedences are declared, however conflicts
  are resolved, and with or without default reductions;
- an LALR(1) grammar has no conflicts, and for it the parser accepts exactly the sentences, whatever precedences are
  declared; if none is declared, only LALR(1) grammars have no conflicts;
- default reductions never change the language: for every grammar, whatever was resolved, the rows before and after
  CompressTables accept the same token strings;
- for an LALR(1) grammar the run on a token string comes to a result, which more time does not change, if and only if it
  comes to no state that spins, that is, above which reductions of what can vanish lead back to that state; so it always
  does without default reductions, and with them if every nonterminal on a right-hand side can vanish or begin with
  a token;
- from the emitted arrays the driver reads just what the rows were packed to: every action, every goto and every
  default of the rows, and on a terminal for which the row has nothing whatever another row stored at the same offset;
- the arrays answer every lookup as the rows do if and only if the rows are `PackedRows.Separable`, that is, no terminal
  without an action in its row meets an action of another row other than the default it stands for, and all rules have
  fewer than 256 symbols, the most that `yyRuleInfo` has room for.

`Lempar.Parser`, a class with the stack of `yyParser`, does on the arrays exactly what the rows say.

**A defect that the proof found.**  `acttab_insert` looks for a hole for a row and, if none fits, uses the last
slot it looked at, which its comment takes for an append.  That slot is always free and inside the array, and no
entry is overwritten; but the offset that belongs to it can be one at which another row has entries already, and then
the parser finds actions of that other row where it should find the default.  `Acttabs.Acttab.Insert` says what is
inserted where and exactly when the row can be read back, `Runs.PackingIsExact` says it of whole runs of insertions, and
`Runs.ExactnessCanFail` gives a run of seventeen insertions, from the empty table, that goes wrong.  The rows alone
determine what happens when they are packed (`PackedRows.RunUnique`), so `PackedRows.Separable` is a condition on the
rows; it holds if every insertion finds a place (`PackedRows.PlacedSeparates`).

A grammar can reach it.  `Misreading.ForkedIsMisread` is about `s ::= T A1. ... s ::= T A7.` with `A1` to `A7` named
in a declaration before the rules, so that they are 1 to 7 and `T` is 8; the nonterminal `error`, which every grammar
has, is 9 and `s` is 10.  The grammar is LALR(1) (`Forked.ForkedIsLalr1`), and whatever rows realize it, whether
compressed or not, the arrays are wrong: on empty input the first state answers with a reduction by a rule of two
symbols, while the stack of the parser has one entry.

**A driver that does not stop.**  The condition on spinning states is needed.  `Looping.EndlessNeverEnds` is about an
LALR(1) grammar (`Endless.EndlessIsLalr1`) with a nonterminal that neither vanishes nor begins with a token.  In two
of its states the most frequent reduction, which CompressTables makes the default, is by an empty rule, and each leads
to the other.  Whatever rows realize the grammar with its defaults chosen like that, the driver never comes to an end
on an input of one token, one that neither state has an action for: it reduces empty rules for ever.
`Termination.TokenEndsExactly` and `Termination.DriverEnds` say exactly when this happens.

**The other components.**

- `RbTrees`, `RbHeaps`: left-leaning red-black trees (`rb/rb.c`), on values and in the heap.  `rb_delete_min` does not
  paint the root black; `RbTrees.DeleteMinRestores` says exactly when the tree is left without its invariant.  All
  operations keep what is left of it, the invariant up to the colour of the root, and insertion restores the rest.
- `Dispatching`: the master and the slaves of `brot/mandelbrot_dyn.c` as a state machine over all interleavings.
- `Pools`: the lazy free-list allocator, with the links inside the free blocks.
- `Lists`: circular intrusive lists in the heap (`gcj/list.h`).
- `UnionFinds`: weighted quick-union and quick-find, against connection by paths of joined pairs.
- `DeferredBufs`: the deferred writer over an arbitrary partial or failing writer.
- `DnsNames`: the in-place domain name codec of `Dripper.c`, against section 3.1 of RFC 1035.
- `Nibbles`: slices of nibbles (`nib/src/lib.rs`).

## How it is modelled

- Configurations live in a pool and are referred to by index, which stands for their address; allocation order is the
  order of addresses.  Look-ahead sets are mathematical sets.  Hash tables are searches of what was put into them.
- Code that works step by step is a method, with the loops of the source; an object whose fields are updated in place is
  a class (`States.Lemon`, `Acttabs.Acttab`, `Lempar.Parser`, `RbHeaps.RbTree`, `Pools.Pool`, `Lists.ListHead`, ...).
- Ghost parameters of heap methods (`t`, `es`, `labels`, ...) give the value that the heap holds; they carry no
  information the program could use.
- `msort` is verified as it is, on nodes in the heap.  Inside the generator a sorted list is the function
  `Sorting.Sort`; `Msorts.MsortDetermined` and `Sorting.OrderedUnique` say why that is the same thing: where no two
  members tie there is only one sorted list.  Actions never do, because their addresses differ, which every pass keeps
  (`ActionLists.SortedOneWay`, `Shifting.AddressesStay`).
- The driver can loop for ever, so its loop takes a bound `fuel`; `Lempar.Accepts` says that some bound is enough, and
  `Termination.Settles` that every bound beyond some point gives the same result.
- The statements about `FindActions` ask that a declared precedence comes with an associativity, as the directives
  `%left`, `%right` and `%nonassoc` provide; it is what the assertion in `resolve_conflict` relies on.

## Where code and documentation disagree

- `acttab_insert` promises to append when no hole is found (`lemon.c:593-594`); see above.
- `yyRuleInfo.nrhs` is an unsigned char (`lempar.c:543`), while the generator admits rules of up to `MAXRHS` = 1000
  symbols (`lemon.c:41`).
- `rb/rb.c:29-34` lists "root is black" as an invariant of trees; `rb_delete_min` does not keep it.
- `brot/mandelbrot_dyn.c` draws nothing when there is no slave.
- `deferredbuf.rs:41` returns an error although the input was kept, where `std::io::Write` asks that an error mean that
  nothing was written.  Bytes are conserved all the same, as long as the caller does not write them again.
- `nib/src/lib.rs` answers an empty range inside a byte with a panic, not with an empty slice.
- In `set_qu_union.c` the size at a root is too large once a pair is joined that was joined before.

## Model

| member | source | states |
|---|---|---|
| FirstSets.FindFirstSets | lemon.c:669-725 | both loops terminate; a nonterminal is marked if and only if it derives the empty string, and t is in its first set if and only if it derives a form that begins with t; likewise for every sequence of symbols |
| FirstSets.LeastFixpoint | lemon.c:669-725 | any tables that are sound and closed under the rules are exactly nullability and FIRST of derivations |
| FirstSets.AddFirst | lemon.c:4200-4222 | the set takes in exactly what the symbol can begin with, and progress is reported if and only if it grew |
| FirstSets.LambdaPass | lemon.c:683-697 | a sweep that reports no progress changed nothing and left the marks closed under every rule; one that reports progress marked something new |
| FirstSets.FirstOfRule | lemon.c:703-721 | a rule that brings no progress changed nothing, and the set of its left-hand side has all that the rule can begin with |
| FirstSets.FirstPass | lemon.c:700-723 | a sweep without progress leaves the sets closed under every rule; with progress the sets have grown |
| States.Lemon.FindConfig | lemon.c:4871-4884 | finds the configuration of the current list with this item, or there is none |
| States.Lemon.AddConfig | lemon.c:1179-1203 | an item is in the list once: the old configuration is returned, or one new configuration is appended |
| States.Lemon.AddBasis | lemon.c:1206-1231 | a new item joins both the list and the basis; for one that is listed already the old configuration is returned and nothing changes |
| States.Lemon.HandOn | lemon.c:1255-1271 | the predicted configuration takes what the symbols behind the dot can begin with, up to the first that cannot vanish, and is linked if all can |
| States.Lemon.CloseOne | lemon.c:1242-1274 | every rule for the nonterminal behind the dot is in the list, with its look-aheads and links |
| States.Lemon.Closure | lemon.c:1234-1276 | terminates; the list is closed under prediction, every member not in the basis is called for by an earlier one, and look-aheads and links are handed on as the symbols behind the dot demand |
| States.Lemon.FindState | lemon.c:4731-4744 | finds the state with item for item the same basis, or there is none |
| States.Lemon.MergeLinks | lemon.c:805-813 | the existing state takes over the back links of the basis just built, item by item, and nothing else changes |
| States.Lemon.GatherGroup | lemon.c:868-882 | the new basis is every configuration of the state with this symbol behind the dot, moved over it and linked back, and all of these are complete |
| States.Lemon.AddShifts | lemon.c:888-897 | one shift for the symbol, or for each constituent of a MULTITERMINAL, in front of the others |
| States.Lemon.ShiftGroup | lemon.c:866-897 | all configurations with one symbol behind the dot get their successor, and all other states are left alone |
| Backlinks.GroupOrigin | lemon.c:868-882 | all back links of a gathered basis lead to the state it was moved from |
| Backlinks.BackMerged | lemon.c:805-813 | a known state gains links only from states of which it is the successor |
| Backlinks.BackNew | lemon.c:814-828 | the back links of a new state lead to the state of which it is the successor, and no configuration belongs to two states |
| States.Lemon.GetState | lemon.c:791-830 | the state returned has this basis; it and all states made on the way are complete: closed, distinct from each other, with all successors; terminates because every new state has a new basis |
| States.Lemon.BuildShifts | lemon.c:851-899 | every successor of the state is made and entered as a shift, nothing about other states changes, and every state made meanwhile is complete and was found in its turn |
| States.Lemon.FindStates | lemon.c:732-785 | all states are closed, pairwise different and have all their successors; each but the first was found from an earlier one, after all that the configurations before lead to and all that the states in between lead to; the first is built from the start rules with look-ahead `$` |
| Canonical.StateIsClosure | lemon.c:1234-1276 | the items of a state are the least closed set that contains its basis |
| Canonical.CanonicalCollection | lemon.c:732-785 | the states are the canonical LR(0) collection: a family closed under goto, without repetition, and contained in every family that is |
| Discovery.StatesDepthFirst | lemon.c:851-899 | the states are found in the order of a depth-first search over the symbols of each state, by the first item that has them behind the dot |
| Discovery.FoundOneWay | lemon.c:851-899 | there is only one such order: the grammar determines the number of every state |
| Follow.FindLinks | lemon.c:904-930 | forward links afterwards are those there were, and the reverse of every back link of a configuration of a state |
| Follow.PassAlong | lemon.c:957-965 | a configuration hands its look-aheads to all it links to, is complete, and whatever gained by it is not |
| Follow.FollowPass | lemon.c:953-968 | a sweep without progress leaves everything complete and unchanged; one with progress has made the sets larger |
| Follow.FindFollowSets | lemon.c:939-969 | terminates; t is in the set of a configuration if and only if it arrives along links from a configuration that held it at first: the least solution of propagation |
| ActionLists.ActionLePreorder | lemon.c:377-393 | actioncmp orders any two actions, transitively; what the order decides is stated by Verdicts.ChampionPrevails, Rulings.LastWins and Rulings.FirstRuleAnswers |
| ActionLists.OneSurvives | lemon.c:1058-1119 | of two actions that meet exactly one is left alive, unchanged, and the other is not alive; which one is stated by Verdicts.ChampionPrevails, Rulings.ShiftAgainstRule and Rulings.RuleAgainstRule |
| Resolve.ResolveTurn | lemon.c:1021-1027 | the turn of one action against the later ones of its look-ahead amounts to one more round of the knock-out, counts the conflicts it makes, and marks as conflicts those losers that precedences do not decide about |
| Resolve.ResolveConflicts | lemon.c:1015-1028 | in every group of actions on one look-ahead the winner of a knock-out is alive and no other; the losers marked as conflicts are those that met a winner so far that precedences do not set apart from them; the number returned is the number of conflict entries made |
| Verdicts.ChampionPrevails | lemon.c:1058-1119 | the winner of the knock-out of a sorted group is what prevails by the precedences: the shift if no rule beats it, otherwise the first rule of the highest precedence, where a first rule without precedence goes before all |
| Verdicts.ReportedDisputed | lemon.c:1058-1119 | a rule is reported as a conflict if and only if precedences do not decide between it and what prevails among the shift and the rules before it |
| Verdicts.OnePrevails | lemon.c:1014-1028 | at most one action prevails on a look-ahead |
| Verdicts.ShiftOrRule | lemon.c:1073-1088 | a shift prevails over one rule if and only if one of them has no precedence, the token has the higher one, or they are equal and the token is right- or nonassociative; the rule otherwise |
| Verdicts.RuleOrRule | lemon.c:1089-1101 | the later of two rules prevails if and only if the first has a precedence and the later a higher one |
| Verdicts.WithoutPrecedences | lemon.c:1058-1119 | without precedences the shift prevails, or else the first rule, and all other rules are disputed |
| Resolve.ResolvedDeterministic | lemon.c:1014-1028 | afterwards every look-ahead that had an action has exactly one that is alive, and it is one of those there were |
| Resolve.NoConflictAllAlive | lemon.c:1058-1119 | where every loser is reported, no conflict means that no action was given up |
| Resolve.LosersReported | lemon.c:1058-1119 | without declared precedences whatever loses is entered as a conflict |
| Resolve.NobodyFights | lemon.c:1014-1028 | where no look-ahead has two actions nothing is changed |
| Resolve.AllAliveOneEach | lemon.c:1014-1028 | where every action stays alive no look-ahead had two |
| Outcomes.Fate | lemon.c:1014-1028 | in a resolved list what is alive prevails on its look-ahead, the last entered shift where there are several; a rule is a conflict if and only if it is disputed, a shift if and only if another stands before it |
| Outcomes.SortedDecided | lemon.c:1014-1028 | sorting and resolving a list of actions leaves alive just what prevails among them, whatever order they were entered in |
| Outcomes.SortedCount | lemon.c:1014-1028 | the conflicts counted are the disputed rules of the list and its shifts beyond the first on each look-ahead |
| Reductions.AddReductions | lemon.c:983-1000 | exactly one reduction is entered for each look-ahead of each configuration at the end of its rule |
| Reductions.ReduceOne | lemon.c:990-998 | exactly one reduction for each look-ahead of a complete configuration, in front of the actions there were |
| Reductions.FinishState | lemon.c:1014-1028 | for one state: live actions were called for, every look-ahead with a call has exactly one live action, and it is the one that prevails; the list is in the order of look-aheads, and the number returned is that of disputed rules and surplus shifts; where no look-ahead has two actions there is no conflict and every action stays alive |
| Reductions.EnteredOneEach | lemon.c:983-1012 | two actions were entered for one look-ahead of a state if and only if two are called for |
| Reductions.FindActions | lemon.c:975-1043 | the same for all states, with the accepting action in the first one: what is alive prevails among what the state calls for, and the conflicts are the sum over all states; where no look-ahead of a state calls for two actions there is no conflict and no action is given up, and without precedences there is no conflict only then |
| Compress.ExplicitMeans | lemon.c:4052-4106 | looking up a look-ahead finds an action if and only if a live one is there, and in a deterministic list it is that one |
| Compress.CountAfter | lemon.c:4075-4081 | how often the rule is reduced by from here on |
| Compress.FindBest | lemon.c:4063-4086 | no rule but start rules is reduced by more often than the one found, and of several as frequent the one found stands first in the list |
| Compress.MakeDefault | lemon.c:4092-4104 | the reductions by that rule, and no others, are answered by the default now |
| Compress.CompressState | lemon.c:4061-4105 | a list is left alone if and only if it has no reduction but by start rules, or shifts the wildcard; otherwise the first of the most frequent rules, never a start rule, becomes the default |
| Compress.CompressionKeepsAnswers | lemon.c:4052-4106 | a look-ahead that had an action is answered by the same action; every other one by the default reduction |
| Chosen.FrequencyCounts | lemon.c:4075-4081 | the number of reductions by a rule is that of the tokens the state reduces by it on |
| Chosen.LeadsBefore | lemon.c:4082 | of the rules as frequent as the default, none is reduced by on as low a token |
| Chosen.RowChosen | lemon.c:4063-4106 | in the row of a compressed list the default is a rule, never a start rule, that the row before reduced by on no fewer tokens than any other, and on a lower token than any other as frequent; just its reductions are gone from the row; there is none only if there was no such reduction |
| Report.ResortPreorder | lemon.c:4115-4129 | stateResortCompare orders any two states, transitively |
| Report.ResortStates | lemon.c:4136-4165 | the new numbers are a permutation of the old ones that keeps state 0; of any two others the one with more gotos comes first, then the one with more actions on terminals, then the one found later |
| Emission.RowSizes | lemon.c:4148-4157 | nTknAct and nNtAct are the numbers of entries of the row |
| Emission.RowsResorted | lemon.c:4115-4165 | from the second row on, rows with more gotos come first, then those with more actions on terminals, then those of states found later |
| Acttabs.Acttab.constructor | lemon.c:482-490 | an empty table with nothing pending |
| Acttabs.Acttab.Action | lemon.c:497-521 | the pending row gains exactly this look-ahead and action; the table is untouched |
| Acttabs.Acttab.FindDuplicate | lemon.c:560-584 | finds the last offset at which exactly the pending row is stored, or there is no such offset |
| Acttabs.Acttab.FindHole | lemon.c:590-611 | finds the first slot from which the row fits between the others, or none fits below where the search gives up |
| Acttabs.Acttab.Insert | lemon.c:530-623 | the table, the number of slots used and the offset are those of the function `Insertion`; the row at the offset gains the pending one and every other offset keeps its row; no entry changes; all writes are inside the array; the row is read back exactly if and only if the table had a place for it |
| Acttabs.LookupIsRow | lempar.c:389-436 | the driver's probe of slot offset + la answers with the row of that offset, and with nothing else |
| Acttabs.ExactProbes | lempar.c:389-436 | reading exactly a row is the same as answering every probe by it |
| Acttabs.InsertionKeepsRows | lemon.c:530-623 | an insertion that finds a place keeps all rows exact and adds its own |
| Acttabs.GivingUpMisreads | lemon.c:590-611 | in a certain table in use the search for a hole gives up, and the driver finds the action of another row |
| Packing.PackRowMeans | lemon.c:3712-3718 | a packed row has a code for a look-ahead if and only if there is a live action on it, and the code is that of the action under the new state numbers |
| Packing.CountIsSize | lemon.c:4148-4157 | nTknAct and nNtAct are the sizes of the packed rows |
| Packing.EnterRow | lemon.c:3711-3730 | the calls of acttab_action for a state make its packed row pending |
| Runs.PackingIsExact | lemon.c:3709-3735 | after any run of insertions all rows are read back exactly at their offsets if and only if each insertion found a place |
| Runs.ExactnessCanFail | lemon.c:530-623 | a run of seventeen insertions, from the empty table: sixteen find a place, the last does not, and the driver reads another row's action at its offset |
| Runs.RunsDetermined | lemon.c:530-623 | a run of insertions is determined by its rows |
| Runs.TableIsUnion | lemon.c:530-623 | after any run the table holds at every offset just what was inserted there, by whichever rows |
| PackedRows.RunUnique | lemon.c:3706-3735 | the rows of the automaton determine their order, the insertions and the table |
| PackedRows.RepresentsExactly | lempar.c:382-472 | the arrays mean what the rows mean if and only if no terminal without an action meets an action of another row, other than its default, and no rule has more than 255 symbols |
| PackedRows.PlacedSeparates | lemon.c:590-611 | if every insertion finds a place no terminal meets an action of another row |
| Packing.AxPreorder | lemon.c:3537-3547 | axset_compare orders any two rows, transitively |
| Packing.PackTables | lemon.c:3684-3735 | the rows with actions are inserted, longest first, and no others; each has the offset at which it was inserted, and the least offsets are the least of 0 and these |
| Emission.DefaultCode | lemon.c:4145-4158 | yy_default holds the code of the default reduction, or that of the error action |
| Emission.CopyTable | lemon.c:3738-3770 | every slot in use is emitted as it is, and an unused one can match no look-ahead |
| Emission.CopyOffsets | lemon.c:3772-3820 | every state has its offset, or the number below 0 and all offsets, which means there is none; the column ends with the last state that has one |
| Emission.ShiftLookup | lempar.c:382-437 | yy_find_shift_action answers with what the table stores at the offset of the state, and with the default where it stores nothing |
| Emission.ReduceLookup | lempar.c:447-472 | yy_find_reduce_action answers with what the table stores at the offset of the state, and its assertions hold |
| Emission.RunOfRows | lemon.c:3706-3735 | the insertions are those of the rows of the automaton that are not empty, longest first, later ones first among those of one length, and the table is what they leave |
| Emission.ShiftRead | lempar.c:382-437 | on a terminal a state reads its own action, or one of another row that was given the same offset, or its default |
| Emission.GotoRead | lempar.c:447-472 | on a nonterminal a state reads its goto, whatever else is stored at the offset |
| Emission.ExactTables | lemon.c:3684-3836 | from the arrays the driver reads just what the rows were packed to |
| Emission.WrittenOnce | lemon.c:3684-3836 | the rows determine every entry of the arrays |
| Emission.ReportTable | lemon.c:3684-3836 | the arrays are those written for the rows; the driver reads from them just what the rows were packed to, and this is what the rows mean if and only if they are separable and the rules short |
| Forked.RealizedForked | lemon.c:975-1043 | all rows that realize the automaton of `s ::= T A1. ... s ::= T A7.` have one form: a shift of T, the shifts of A1 to A7, and one reduction on `$` in each of seven states |
| Forked.ForkedIsLalr1 | lemon.c:983-1028 | this grammar is LALR(1) |
| Misreading.LastTwo | lemon.c:590-611 | when its rows are packed, the search for a place for the first row gives up, at the offset of a row of another state |
| Misreading.ForkedIsMisread | lempar.c:742-757 | whatever arrays the generator makes for this grammar, on empty input the first state answers with a reduction by a rule of two symbols, where the rows call for a syntax error and the stack has one entry |
| Soundness.FrontItem | lemon.c:1234-1276 | an item with its dot in front is a start rule in the first state, or is called for by another item of the state |
| Soundness.ShiftSound | lemon.c:851-899 | whatever has its dot moved in the target of a shift has it one symbol earlier in the source, and the target is never the first state |
| Soundness.StartOnDollar | lemon.c:770-778 | a configuration of a start rule has no look-ahead but `$` |
| Soundness.ReduceSound | lemon.c:983-1000 | a reduction is entered only where the rule is complete, and for a start rule only on `$` |
| Soundness.LiveSound | lemon.c:975-1043 | every live action, under the new numbers, is sound for the driver |
| Soundness.GotoServed | lemon.c:1002-1012 | after a rule for A is reduced back to a state that began it, the state has a goto on A, or accepts |
| Soundness.CompressedRow | lemon.c:4052-4106 | compression keeps explicit actions sound and loses no goto |
| Soundness.DefaultSound | lemon.c:4063-4086 | the default is a reduction of the state by a rule that is not a start rule, or the error action |
| Propagation.FlowLooks | lemon.c:939-969 | whatever flows to a configuration is a look-ahead of the LALR(1) automaton |
| Propagation.LookFlows | lemon.c:939-969 | every look-ahead of the automaton flows to the configuration |
| Propagation.LookaheadsExact | lemon.c:904-969 | the look-aheads of every item of every state are those of the LALR(1) automaton, no more and no fewer |
| Contexts.ExpectedDerives | lemon.c:904-969 | what is expected behind a prefix comes from a derivation that leaves the prefix alone |
| Contexts.ExpectedIsLook | lemon.c:904-969 | whatever can come behind a rule that is expected is a look-ahead of its item in the state of the prefix |
| Contexts.LookIsMet | lemon.c:904-969 | every look-ahead comes from a prefix that leads to the state and a derivation that leaves it alone |
| Contexts.LookaheadsAreContexts | lemon.c:904-969 | t is a look-ahead of an item in a state if and only if behind some prefix that leads to the state the item is met and t can follow its rule |
| Clashes.ReducesExact | lemon.c:987-998 | a state reduces by a rule on a look-ahead if and only if the automaton does |
| Clashes.ShiftOf | lemon.c:886-897 | every symbol that the automaton shifts over has all its shifts, to the state of its goto |
| Clashes.ClashesExact | lemon.c:983-1028 | two actions meet in a state if and only if the automaton calls for two: two rules, a rule and a shift, two symbols with a constituent in common, or one that names a constituent twice |
| Clashes.UnclashedIsLalr1 | lemon.c:983-1028 | no two actions meet in any state if and only if the grammar is LALR(1) |
| Rulings.ShiftsCounted | lemon.c:886-897 | a state has one shift for each constituent of each symbol behind a dot |
| Rulings.LastWins | lemon.c:886-897 | of several shifts on one terminal the one at the highest address is that of the symbol whose first item stands last |
| Rulings.LiveRuled | lemon.c:1014-1028 | a live action of a state is the one that prevails among those its kernel calls for in the LALR(1) automaton |
| Rulings.RowRuled | lemon.c:1014-1028 | the answer of a row on a terminal is the action that prevails among those the automaton calls for |
| Rulings.ConflictsTotal | lemon.c:1014-1028 | the conflicts counted by FindActions are the sum, over the kernels of the automaton, of disputed rules and surplus shifts |
| Rulings.ConflictsUndeclared | lemon.c:1014-1028 | without precedences the conflicts of a state are the actions it calls for less the look-aheads that have an action |
| Rulings.ShiftAgainstRule | lemon.c:1073-1088 | where a state calls for a shift and one rule the row shifts if and only if a precedence is missing, that of the token is higher, or they are equal with RIGHT or NONE; it reduces if and only if the rule has the higher precedence, or an equal one with LEFT |
| Rulings.FirstRuleAnswers | lemon.c:1089-1095 | where only rules are called for and no precedence is declared the row reduces by the first of them |
| Rulings.RuleAgainstRule | lemon.c:1089-1101 | of two rules the row reduces by the second if and only if the first has a precedence and the second a higher one |
| Realization.AnswerCalled | lemon.c:4052-4106 | after resolution and compression a symbol is answered by an action the automaton calls for, and by none if it calls for none |
| Realization.DefaultCalled | lemon.c:4063-4086 | the default is an error, or a reduction the automaton calls for in this state, and not by a start rule |
| Realization.RowsRealized | lemon.c:975-1043 | the rows realize the LALR(1) automaton, each of its states once, the first one first |
| Lempar.Parser.constructor | lempar.c:269-284 | a parser over tables that represent sound rows starts with an empty stack |
| Lempar.Parser.GrowStack | lempar.c:238-254 | the stack has room for more, and keeps its entries |
| Lempar.Parser.PushState | lempar.c:495-538 | exactly one entry is added on top |
| Lempar.Parser.ReduceBy | lempar.c:554-627 | pops the right-hand side and pushes the goto of the state uncovered, or accepts, as the rows say; no read outside the stack, no failing assertion |
| Lempar.Parser.Begin | lempar.c:716-731 | a parser that is not running is restarted at state 0; a running one is left alone |
| Lempar.ReportsSuppressed | lempar.c:838-846 | from the beginning of an input on, the next error is reported if and only if there was none before, or three tokens have been shifted since the last one |
| Lempar.Parser.HandleError | lempar.c:838-846 | an error is reported unless fewer than three tokens were shifted since the last; the parse fails if and only if it is at the end of the input |
| Lempar.Parser.Iterate | lempar.c:742-849 | one iteration on the arrays is one step by the rows; a shift counts yyerrcnt down, an error sets it to 3, and an error is reported if and only if yyerrcnt was not positive |
| Lempar.Parser.Parse | lempar.c:702-851 | what becomes of a token is what the rows say; no assertion fails; acceptance is on `$` and only if the tokens shifted are a sentence; an error is reported if and only if the token is wrong and yyerrcnt was not positive, and yyerrcnt moves as the run says |
| Lempar.Parser.ParseInput | lempar.c:702-851 | feeding the tokens and then 0 accepts if and only if the run by rows parses them all |
| Lempar.RuleInfoExact | lempar.c:540-546 | the lengths in yyRuleInfo are those of the rules if and only if all are below 256 |
| Lempar.ActDecodes | lempar.c:743-752 | the ranges of action numbers tell shift, reduction and error apart as the row means them, and the assertions on them hold |
| Lempar.ReducedRow | lempar.c:602-626 | the state uncovered by a reduction is in range, has an action on the left-hand side, and the arrays have it too |
| Lempar.ItemTellsStack | lempar.c:554-627 | an item of the top state tells the topmost symbols and the state its rule was begun in |
| Lempar.ReduceRecognizes | lempar.c:554-627 | a reduction keeps that the stack symbols derive the tokens shifted, never gets stuck, and accepts only when these are a sentence |
| Lempar.TokenIsSane | lempar.c:742-849 | any number of iterations on a token keeps what is recognized, and accepts only sentences, only on `$` |
| Lempar.InputRecognizes | lempar.c:702-851 | every run over every input: never stuck, and what is accepted, without the tokens thrown away, is a sentence |
| Lempar.AcceptedIsSentence | lempar.c:702-851 | if all of w is accepted then w is a sentence |
| Completeness.TreeRun | lempar.c:742-849 | where an item expects a symbol, the driver reads any tree for it to the end and is left with exactly that symbol on its stack |
| Completeness.SentenceAccepted | lempar.c:702-851 | over complete rows every sentence is accepted, by any fuel beyond some bound |
| Completeness.AcceptsExactly | lempar.c:702-851 | over rows that are sound and complete the driver accepts exactly the sentences |
| Sufficiency.ClosureServes | lemon.c:1246-1273 | what can follow a predicted rule is among its look-aheads |
| Sufficiency.MoveServes | lemon.c:851-899 | look-aheads are carried along when the dot moves |
| Sufficiency.ShiftAnswers | lemon.c:4052-4106 | without losers every shift is still there after compression |
| Sufficiency.ReduceAnswers | lemon.c:4052-4106 | without losers every reduction is still there after compression, or is the default |
| Sufficiency.RowsComplete | lemon.c:975-1043 | without losers the rows have every action that the look-aheads ask for |
| Generation.Analyze | lemon.c:1470-1484 | the passes up to FindFollowSets, each meeting what the next one needs |
| Determinacy.RulingOnce | lemon.c:1014-1028 | on a terminal only one action can be the answer of a state, wherever the states are numbered |
| Determinacy.ChosenOnce | lemon.c:4063-4086 | only one rule can be the default of a state |
| Determinacy.OrderOnce | lemon.c:4115-4165 | the states can be renumbered in one way only |
| Determinacy.RowsDetermined | lemon.c:1470-1501 | grammar, precedences and the choice to compress determine the rows, before and after CompressTables, and all state numbers |
| Generation.RowsSound | lemon.c:1486-1495 | whatever was resolved and compressed, the rows are sound for the driver |
| Generation.CompressTables | lemon.c:4052-4106 | every state is left alone or has a most frequent rule as its default, as its list and the wildcard demand |
| Generation.Generate | lemon.c:1470-1501 | the end-to-end theorem: rows that realize the LALR(1) automaton, answer with what prevails where it calls for several actions, and accept only sentences; the exact number of conflicts; states in the order found and renumbered as stated; for LALR(1) grammars no conflicts, and acceptance of exactly the sentences, whatever precedences are declared; without precedences no conflicts only for LALR(1) grammars; default reductions, each by the first of the most frequent rules of its state, that never change the language; for LALR(1) grammars a result for exactly those inputs on which no state spins, and for all inputs without defaults or where every nonterminal on a right-hand side can vanish or begin with a token; arrays that hold what the rows were packed to, and that answer as the rows do if and only if the rows are separable and the rules short |
| Generation.GeneratedOnce | lemon.c:1470-1501 | whoever keeps the promises of Generate writes the same arrays, entry by entry, and reports as many conflicts |
| Generation.PlainRows | lemon.c:4052-4106 | the rows before and after CompressTables both realize the automaton, differ in actions made defaults only, and those before have no default |
| Generation.PlainRuled | lemon.c:1014-1028 | the rows before CompressTables answer with what prevails |
| Generation.RulingsStay | lemon.c:4052-4106 | the rows after CompressTables answer with what prevails |
| Generation.AllDetermined | lemon.c:1470-1495 | all that determines the rows holds of what the passes arrive at |
| Generation.RowsChosen | lemon.c:4052-4106 | the defaults in the rows are those that CompressTables chooses |
| Defaults.ReadSame | lempar.c:742-849 | if the run with defaults reads a token, so does the run without, with the same stack: no default was reduced on the way |
| Defaults.DefaultsKeepLanguage | lemon.c:4052-4106 | for every grammar the rows with and without defaults accept the same token strings, whatever conflicts there were |
| Reading.ReadRun | lempar.c:742-849 | where what is left of an item and of what is behind it leads to a token by a leftmost derivation, the run reads the token |
| Reading.ComingIsRead | lempar.c:742-849 | in an LALR(1) grammar a token that can come next is read, in finitely many iterations |
| Building.EraseRun | lempar.c:742-849 | where the rest of a rule can vanish and the token can come behind the rule, the run builds the rest and reduces the rule, and takes nothing from below it |
| Towers.NoUnitCycle | lempar.c:742-849 | in an LALR(1) grammar no nonterminal is reduced to itself by rules that add nothing but what can vanish |
| Towers.TowerRun | lempar.c:742-849 | nonterminals that can vanish are built on the stack on every token that can come behind all of them |
| Spinning.SpinIsEndless | lempar.c:742-849 | from a stack that ends in a spinning state no number of iterations is enough, whatever is below |
| Spinning.NoSpin | lempar.c:742-849 | in an LALR(1) grammar no state spins without default reductions, or where every nonterminal on a right-hand side can vanish or begin with a token |
| Termination.LocalEnds | lempar.c:742-849 | above any stack of an LALR(1) grammar the reductions come to an end where no state spins: towers are lower than there are states, and on one level no nonterminal comes back |
| Termination.TokenEndsExactly | lempar.c:742-849 | for LALR(1) grammars, with defaults or without, the iterations on a token come to an end if and only if they come to no state that spins |
| Termination.DriverEnds | lempar.c:702-851 | for LALR(1) grammars a token string comes to one result if and only if no state spins on the way |
| Termination.DriverAlwaysEnds | lempar.c:702-851 | for LALR(1) grammars every token string comes to a result without default reductions, or where every nonterminal on a right-hand side can vanish or begin with a token |
| Endless.AllKernels | lemon.c:732-785 | the automaton of a certain grammar has no states but the 22 listed |
| Endless.OnlyThese | lemon.c:904-969 | the look-aheads of its items are among those listed |
| Endless.EndlessIsLalr1 | lemon.c:983-1028 | this grammar is LALR(1) |
| Looping.AgainSpins | lempar.c:742-849 | with the defaults that CompressTables chooses two of its states lead to one another by reductions of empty rules |
| Looping.EndlessNeverEnds | lemon.c:4052-4106 | whatever rows the generator makes for this grammar with default reductions, on a certain input of one token the driver never comes to an end |
| Sorting.SortOrders | lemon.c:1619-1643 | the sorted list is ordered and has the same members |
| Sorting.OrderedUnique | lemon.c:1619-1643 | where no two members tie, there is only one ordered list of them |
| Msorts.Merge | lemon.c:1567-1603 | two lists of different nodes are relinked in place into the one merged list |
| Msorts.Carry | lemon.c:1634-1638 | adding a list to the bins is adding one to a binary counter: bin i holds 2^i nodes or none, in order, and past the last bin nodes are lost |
| Msorts.TakeOne | lemon.c:1630-1639 | one node goes from the list to the bins, and the rest of the list stays as it is |
| Msorts.Collect | lemon.c:1640-1642 | the bins end up in one list in order with all their nodes |
| Msorts.HeldIsAll | lemon.c:1618-1643 | thirty bins hold all of n nodes if and only if n is below 2^30 |
| Msorts.Msort | lemon.c:1619-1643 | the result is in order and consists of nodes of the list; it has all of them if and only if they are fewer than 2^30 |
| Msorts.MsortDetermined | lemon.c:396-402 | where no two nodes compare equal there is only one sorted list |
| ActionLists.SortedOneWay | lemon.c:396-402 | no two actions of a list tie, so any ordered list of them is the one that Action_sort returns |
| Shifting.AddressesStay | lemon.c:888-897 | the actions of all states keep addresses below those to come, which is why no two ever tie |
| RbTrees.RotateLeftKeys | rb/rb.c:86-95 | a rotation keeps the search order and the keys |
| RbTrees.InsertBalances | rb/rb.c:203-220 | insertion below the root keeps equal black heights, and leaves at most one red pair, at the top, if the subtree was red |
| RbTrees.InsertValid | rb/rb.c:222-234 | rb_insert keeps the whole invariant, and the keys are the old ones and the new |
| RbTrees.DeleteMinBalances | rb/rb.c:152-163 | from a subtree that is red or has a red left child no null child is followed and the invariant is kept; a red subtree turns black exactly if there was nothing to borrow |
| RbTrees.DeleteMinKeys | rb/rb.c:152-163 | exactly the least key goes, and the search order is kept |
| RbTrees.DeleteMinValid | rb/rb.c:165-168 | on whole trees, painting the root black restores the invariant; without that it holds if and only if there was no left child, or something red along the left side |
| RbTrees.InsertRestores | rb/rb.c:222-234 | from a tree that is sound up to the colour of its root rb_insert makes one that is sound |
| RbTrees.DeleteMinColour | rb/rb.c:165-168 | the colour of the root decides the colour of the new root, and nothing else |
| RbTrees.DeleteMinRestores | rb/rb.c:165-168 | the same from a tree that is sound up to the colour of its root: it stays so, the least key goes, and all of the invariant holds if and only if there was no left child, or the root was red exactly if nothing was red along the left side |
| RbTrees.SoundPasses | rb/rb.c:35-65 | a tree with the invariant passes assert_h, which returns its black height |
| RbTrees.DeleteMinChecked | rb/rb.c:35-65 | after rb_delete_min, assert_h fails exactly if the invariant does not hold |
| RbTrees.DeleteMinCanFail | rb/rb.c:165-168 | three black nodes are a tree that rb_delete_min leaves without the invariant |
| RbHeaps.RotateLeftAt | rb/rb.c:86-95 | relinking in the heap is the rotation of the tree, on the same nodes |
| RbHeaps.RotateRightAt | rb/rb.c:86-95 | likewise, to the other side |
| RbHeaps.ColorFlipAt | rb/rb.c:97-112 | recolouring in the heap is the flip of the tree; nothing happens if a child is missing |
| RbHeaps.Correct | rb/rb.c:138-150 | the corrections on the way up, in the heap, are those on trees |
| RbHeaps.MoveRedAt | rb/rb.c:126-136 | borrowing a red node, in the heap, is that on trees |
| RbHeaps.InsertAt | rb/rb.c:203-220 | insertion in the heap is insertion into the tree; at most one node is new |
| RbHeaps.DeleteMinAt | rb/rb.c:152-163 | deletion in the heap is deletion from the tree; no null child is followed |
| RbHeaps.LeastAt | rb/rb.c:72-78 | the leftmost key is found |
| RbHeaps.RbTree.constructor | rb/rb.c:236-242 | an empty tree with the invariant |
| RbHeaps.RbTree.Insert | rb/rb.c:222-234 | after any calls before it, the whole invariant holds and the contents gain exactly the key |
| RbHeaps.RbTree.Min | rb/rb.c:80-83 | after any calls before it, the least of the contents |
| RbHeaps.RbTree.DeleteMin | rb/rb.c:165-168 | after any calls before it, the contents lose exactly their least key and all but the colour of the root is kept; that if and only if there was no left child, or the root was red exactly if nothing was red along the left side |
| Dispatching.StepInv | brot/mandelbrot_dyn.c:159-210 | every step of master or slave keeps the invariant |
| Dispatching.AssignedOnce | brot/mandelbrot_dyn.c:165-201 | every column dispatched went to one slave, in one message |
| Dispatching.OutstandingMeans | brot/mandelbrot_dyn.c:162-197 | outstanding_ct counts the columns dispatched and not yet received, and each of these is with some slave |
| Dispatching.NoDeadlock | brot/mandelbrot_dyn.c:185-268 | until the master has finished and all slaves have exited, some process can go on |
| Dispatching.FinishedMeans | brot/mandelbrot_dyn.c:185-210 | when the master finishes, every slave has one WORK_DONE, after its last column, and has answered all columns; all columns are drawn, once each, if and only if there is a slave or no column |
| Dispatching.Runs | brot/mandelbrot_dyn.c:159-268 | every run, of every interleaving, keeps the invariant, and each step shortens what is left of it |
| Dispatching.RunsAreShort | brot/mandelbrot_dyn.c:159-268 | no run has more than 10 columns + 8 n + 6 states: all runs terminate |
| Dispatching.RunsEnd | brot/mandelbrot_dyn.c:159-268 | a run that cannot go on is over, and every column is drawn once if and only if there is a slave or no column |
| Pools.Pool.constructor | concrete/alloc-fixed/fixed-alloc-pool.c:23-40 | all blocks are available, whatever the memory holds |
| Pools.Pool.Index | concrete/alloc-fixed/fixed-alloc-pool.c:64-73 | the address of a block gives back its number, and the assertions hold |
| Pools.Pool.Alloc | concrete/alloc-fixed/fixed-alloc-pool.c:75-97 | NULL if and only if all blocks are live; otherwise a block that was not live: the one freed last, or the first never used |
| Pools.Pool.Free | concrete/alloc-fixed/fixed-alloc-pool.c:99-114 | the block is no longer live and will be given out next; only its own first word is written |
| Pools.Pool.Scribble | concrete/alloc-fixed/fixed-alloc-pool.c:17-19 | whatever the user writes into live blocks, the chain of free ones is undisturbed |
| Pools.Count | concrete/alloc-fixed/fixed-alloc-pool.c:75-97 | live and free blocks together are the blocks ever initialized |
| Lists.RingMeans | gcj/list.h:35-55 | a ring is well formed if and only if next and prev are inverse all the way round |
| Lists.ListHead.Init | gcj/list.h:35-39 | an empty list |
| Lists.InsertBetween | gcj/list.h:47-55 | the new node stands between the two neighbours, and all else keeps its place |
| Lists.Add | gcj/list.h:65-68 | the new node becomes the first entry |
| Lists.AddTail | gcj/list.h:79-82 | the new node becomes the last entry |
| Lists.Unlink | gcj/list.h:91-95 | the neighbours of a node close up round it |
| Lists.Delete | gcj/list.h:103-108 | the entry is gone, the others keep their order, and its links are poisoned |
| Lists.DeleteInit | gcj/list.h:137-141 | the same, and the entry is a list of its own |
| Lists.Replace | gcj/list.h:117-124 | the new node has the place of the old one, also when that was alone in its ring |
| Lists.ReplaceInit | gcj/list.h:126-131 | the same, and the old node is an empty list |
| Lists.Move | gcj/list.h:148-152 | the entry is the first of the other list and gone from its own, or the first of its own |
| Lists.IsLast | gcj/list.h:171-175 | true if and only if nothing follows in the list |
| Lists.Empty | gcj/list.h:181-184 | true if and only if there are no entries |
| Lists.RotateLeft | gcj/list.h:209-217 | the first entry becomes the last |
| Lists.IsSingular | gcj/list.h:223-226 | true if and only if there is one entry |
| Lists.Cut | gcj/list.h:228-238 | the list is split just after the entry |
| Lists.CutPosition | gcj/list.h:254-266 | the same in all cases: cutting at the head takes nothing, and an empty list leaves the other one as it was |
| Lists.SpliceBetween | gcj/list.h:268-280 | all entries of a list go between two neighbours, in order |
| Lists.Splice | gcj/list.h:287-292 | the entries of one list precede those of the other |
| Lists.SpliceTail | gcj/list.h:299-304 | the entries of one list follow those of the other |
| Lists.SpliceInit | gcj/list.h:313-320 | the same in front, and the list is empty |
| Lists.SpliceTailInit | gcj/list.h:330-337 | the same behind, and the list is empty |
| Lists.CutAndSplice | gcj/list.h:228-320 | cutting anywhere and splicing back restores the list |
| UnionFinds.JoinMeans | set_qf_union.c:27-37 | relabelling one class as another is joining the pair: names agree if and only if elements are connected by joined pairs |
| UnionFinds.QuickFind.constructor | set_qf_union.c:11-17 | every element is a class of its own |
| UnionFinds.QuickFind.Root | set_qf_union.c:19-25 | the name of the class, found in at most one step |
| UnionFinds.QuickFind.Union | set_qf_union.c:27-37 | names agree if and only if elements are connected by the pairs joined so far, this one included; the second class gives its name |
| UnionFinds.QuickUnion.constructor | set_qu_union.c:16-23 | every element is a class of its own, of size 1 |
| UnionFinds.QuickUnion.Root | set_qu_union.c:25-31 | terminates; gives the root that names the class; the number of steps is at most the logarithm of the size at the root, hence of the number of elements if no pair was joined twice over |
| UnionFinds.QuickUnion.Union | set_qu_union.c:33-45 | the heavier root, and of two equally heavy ones the first, names the joined class; the other is linked to it, its size is added, and nothing else changes; roots agree if and only if elements are connected by the pairs joined so far; sizes are the class sizes if and only if no call joined what was connected already |
| UnionFinds.HangForest | set_qu_union.c:38-44 | hanging the lighter root keeps a forest whose sizes are at least 2^height, and keeps sizes exact |
| UnionFinds.DoubledForest | set_qu_union.c:38-44 | joining a class with itself doubles its size, so that it is no longer exact |
| UnionFinds.SameClasses | set_qu_union.c:25-31 | after the same pairs both structures put the same elements together |
| DeferredBufs.DrainTakes | deferredbuf.rs:45-68 | all slices are taken if and only if nothing stopped the writing |
| DeferredBufs.WillingWriter | deferredbuf.rs:45-68 | a writer that takes everything empties the buffer, wherever the deque is split |
| DeferredBufs.DeferredBuf.constructor | deferredbuf.rs:24-29 | an empty buffer |
| DeferredBufs.DeferredBuf.WriteBack | deferredbuf.rs:45-68 | the bytes delivered are exactly the counted front of the buffer, and writing ended where the writer first took less than it was given |
| DeferredBufs.DeferredBuf.Write | deferredbuf.rs:41-85 | bytes delivered followed by bytes buffered are all inputs in order, on success and on failure; what is returned is what the writer did first |
| DeferredBufs.DeferredBuf.Flush | deferredbuf.rs:87-112 | the same; success if and only if the buffer is empty |
| DnsNames.CharAt | Dripper.c:103-110 | while labels are rewritten one after the other the loop can tell a dot from a letter and from a length already written |
| DnsNames.MixedParts | Dripper.c:124-128 | the next label always begins where the length of the last one says |
| DnsNames.ConvertToDns | Dripper.c:99-111 | a dotted name becomes the length-prefixed one in place, and the rest of the buffer is untouched |
| DnsNames.ConvertToStr | Dripper.c:118-132 | a length-prefixed name becomes the dotted one in place, also if a length is the code of a dot; a name beyond the limit is left alone |
| DnsNames.RoundTrip | Dripper.c:99-132 | every name is restored byte for byte |
| Nibbles.NibSlice.Len | nib/src/lib.rs:57-59 | the length of the sequence of nibbles |
| Nibbles.NibSlice.GetOne | nib/src/lib.rs:267-284 | the nibble at that place of the sequence, or nothing if there is none |
| Nibbles.NibSlice.TryNibble | nib/src/lib.rs:123-134 | the only nibble if there is just one; never panics |
| Nibbles.NibSlice.ByteParts | nib/src/lib.rs:146-161 | first nibble, bytes and last nibble together are the sequence |
| Nibbles.B | nib/src/lib.rs:251-257 | byte and half recompose to the offset from the beginning of the bytes |
| Nibbles.RangeMeans | nib/src/lib.rs:286-318 | nothing if and only if the range is out of bounds, a panic if and only if it is empty inside a byte, otherwise exactly the subsequence |
| Nibbles.IndexMeans | nib/src/lib.rs:286-358 | all six kinds of ranges give exactly the nibbles at the positions they contain; nothing if and only if they reach outside, and the full range alone never panics |
| Nibbles.RangeOfRange | nib/src/lib.rs:286-318 | a range of a range is one range with its offsets added |
| Nibbles.Iter.Next | nib/src/lib.rs:170-205 | the first nibble, and the sequence without it |
| Nibbles.Equal | nib/src/lib.rs:207-218 | true if and only if the sequences are equal, however they are aligned |

## Left out

- Generation.Generate: what the language becomes where actions are given up; which of them are is stated state by state.
- Msorts.Msort: in which order nodes that compare equal come out; actions and configurations never do.
- Misreading.ForkedIsMisread: that the seven terminals are numbered before T is a matter of the grammar file, which is not modelled.
- Lempar.Parser.Parse: the loop is cut off by `fuel`, because the driver can reduce for ever; when it does is stated by `Termination.DriverEnds` for LALR(1) grammars, and not stated for others, cyclic ones among them.
- Looping.EndlessNeverEnds: on rows; the memory in which the stack grows is not bounded.
- Termination.DriverAlwaysEnds: the condition on nonterminals is sufficient; the exact one is that of `Termination.DriverEnds`, which speaks of the states the run comes to.
- Lempar.Parser.GrowStack: failure of `realloc`, and with it stack overflow, is not modelled.
- Lempar.Parser.HandleError: the variant without an error symbol only; `%fallback`, `%wildcard`, the error symbol and YYNOERRORRECOVERY are not modelled in the driver.
- Compress.CompressState: takes the wildcard into account, but the end-to-end theorem is for grammars without one.
- Lempar.Parser.ReduceBy: semantic values, destructors, tracing and the NDEBUG variant of `yy_reduce`, which pushes without the overflow test, are not modelled.
- FindRulePrecedences: which symbol gives a rule its precedence is a parameter.
- Reading of grammar files, options, reports and error messages of LEMON, including that a rule is never reduced; the option that leaves states unsorted.
- A start symbol on a right-hand side, which FindStates reports as an error, is excluded where the later passes are concerned.
- The order in which rules of one nonterminal are linked: the closure goes through all rules, latest first.
- Configlist_eat: memory management only; configurations of a basis that was known already are cut off the pool.
- Hash functions and the growth of hash tables; failure of memory allocation everywhere.
- Dispatching.NoDeadlock: sending is taken not to block; MPI errors, the picture data, X11 and timing are not modelled.
- RbHeaps.RbTree.DeleteMin: for trees that are not empty; the source follows a null pointer otherwise.
- Deletion of an arbitrary key in rb/rb.c (`delete_h`), printing and random tests; keys are mathematical integers.
- Pools.Pool.Free: for live blocks only; the source does not detect that a block is freed twice. `pool_init_in` is left out.
- `list_move_tail`, `list_empty_careful`, the iteration macros and `hlist` of gcj/list.h.
- Overflow of `sz` in set_qu_union.c; the number of elements is arbitrary instead of ten.
- DeferredBufs.DeferredBuf.Write: the writer takes a prefix or fails without taking anything; one that reports more than it was given, or panics, is not modelled.
- DnsNames.ConvertToDns: for names whose labels have 1 to 63 bytes; DnsNames.ConvertToStr: for names terminated by NUL, that is with len 0. Sockets, packets and files of Dripper.c are left out.
- Nibbles.IndexMeans: an inclusive range that ends at the greatest `usize`, where adding one overflows; `split_at` is unimplemented in the source, and debug output is left out.
