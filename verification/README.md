# Loom, modelled and proved in Dafny

Loom maps declared objects, policies and actions onto Iceberg tables. This project models its five hard
cores and proves what each is for. `dafny verify dfyconfig.toml` checks everything.

- **The optimistic write protocol.** A run reads a version's id, then the rows, decides, and commits on
  condition that the id is still the latest; then it appends to an edit log in a second commit. `Attempt`
  is one attempt as a function of what it is given; `Protocol` is the machine over the steps of any number
  of runs, other writers, crashes and commits whose answer is lost; `Atomicity` and `Serializability` say
  what that keeps; `ActionRuntime` is the runtime as it runs (`_Run`, its retry loop, the log's loop),
  proved to be one of the machine's runs, so every theorem about executions is about what it returns.
- **The governance language.** One expression is checked, folded with a caller's claims, compiled to SQL on
  the read plane and interpreted on the write plane (`Predicate`, `Evaluate`, `Kleene`, `Ir`, `DuckDb`);
  `PlaneAgreement` proves the two planes say the same. `Governance` binds, selects and composes policies;
  `FailClosed` proves that knowing less, or adding a policy, never shows more. `NonInterference` (a
  bisimulation of the whole write machine) and `MaskedReads` prove that a masked value is never told.
- **The vector sidecar.** `VectorStore` is the hash and the diff, `TextScan` the scan for text, `Batches` the
  pairing of a batch; `Freshness` is the machine of interleaved reconciles, edits, prunes and crashes;
  `EmbedRuntime` is the reconcile as it runs, its steps proved to be the machine's, with its interruptions.
- **The expression lexer and Pratt parser.** `Lexer` and `Parser`, with a full round trip to text in
  `RoundTrip`, `LexRoundTrip` and `TextRoundTrip`.
- **Smaller transformations.** Decimal coercion (`Decimals`, `Coercion`), filter lowering (`Filters`), governed
  reads (`Resolver`), schema edits in one transaction (`SchemaEdits`) and the migration plan they come from
  (`Migration`).

How the model is built:

- Loops and updated fields are loops and classes: `TokenParser`, `Checker`, `RunAttempt`, `Lake`, `Warehouse`,
  `Table`. A method's contract ties it to a function of its inputs, and the lemmas are about that function.
- A port call may fail, and other writers may act before it. Where a method writes `:= *`, the caller has no
  say in the outcome.
- A row is a map from columns; a column a row does not hold is null. Rows of a version are a sequence.
- A refusal carries what a caller can tell apart, never its wording.

Where the code is narrower than its own prose, the model follows the code and says when the prose holds:

- `check` accepts ordering two booleans, the evaluator refuses it and SQL answers it. It also follows a
  reference one step, so two references whose keys are references may be accepted although they are carried
  as values of two classes, which the evaluator finds unequal and SQL cannot compare.
  `PlaneAgreement.LeafPlanesAgree` says exactly when the planes agree, `BooleanOrderSplitsPlanes` shows a row.
- A boolean is coerced to a boolean only where one is declared, so a reference to a type keyed by booleans
  does not take back the value it coerced from text (`Coercion.CoercedAgain`).
- Nothing refuses a modify that sets the primary key. `Atomicity.WriteKeepsKeysUnique` and
  `AfterReportsTheRow` are the exact conditions, `SettingTheKeyMayDoubleIt` a table it breaks.
- A create evaluates its key twice, so `KeepsItsKey` asks that it be free of `now()`.
- A null key is found by a run and not by `get` (`Resolver.NullKeyIsNotFound`).
- The edit log's retry makes two rows of one record when an append lands unacknowledged
  (`Serializability.LogTells` counts them).
- The text scan leaves the first row of a duplicated key out of every count (`TextScan.Accounting`).
- `{"contains": null}` is accepted although a null is announced nowhere for it (`Filters.AcceptsTheAnnounced`).
- A zero is refused by a decimal type that leaves no place before the point (`Decimals.ZeroRefusedExactly`).

## Model

| member | source | states |
|---|---|---|
| `Lexer.Tokenize` | src/loom/expr.py:131-177 | the lexing loop produces the tokens of `Lex`, or refuses where it does |
| `LexRoundTrip.NumberRoundTrip` | src/loom/expr.py:150-157 | a number's spelling reads back as that number, integer or with a fraction |
| `LexRoundTrip.LexLaid` | src/loom/expr.py:131-177 | tokens spelled out under any layout that keeps neighbours apart are read back as those tokens |
| `Parser.TokenParser.ParseExpr` | src/loom/expr.py:215-224 | the climbing loop over the cursor parses what the recursive specification does and leaves the same rest |
| `Parser.TokenParser.ParseUnary` | src/loom/expr.py:226-231 | the prefix operators, likewise |
| `Parser.TokenParser.ParsePrimary` | src/loom/expr.py:233-250 | literals, parentheses, references and calls, likewise |
| `Parser.TokenParser.ParseRef` | src/loom/expr.py:252-260 | a dotted path, likewise |
| `Parser.TokenParser.ParseCall` | src/loom/expr.py:262-271 | an argument list, likewise |
| `Parser.Parse` | src/loom/expr.py:274-295 | stripping, unwrapping the braces, lexing and parsing a text |
| `RoundTrip.TokensRoundTrip` | src/loom/expr.py:190-271 | parsing a tree's minimal-parenthesis tokens gives the tree back |
| `TextRoundTrip.LayoutParses` | src/loom/expr.py:274-295 | so does parsing its text, under every layout |
| `TextRoundTrip.BracesParse` | src/loom/expr.py:274-295 | and its text inside double braces |
| `TextRoundTrip.ParseSound` | src/loom/expr.py:274-295 | whatever parses is a tree of the grammar |
| `TextRoundTrip.ParseableIffWellFormed` | src/loom/expr.py:131-295 | a tree is the meaning of some text exactly when it is of the grammar |
| `TextRoundTrip.OperatorsGroup` | src/loom/expr.py:183-224 | two operators in a row group by the precedence table, and to the left on a tie |
| `Predicate.Check` | src/loom/predicate.py:194-230 | refuses nothing exactly when the expression may govern the type's rows |
| `Predicate.CheckGuard` | src/loom/predicate.py:233-258 | refuses nothing exactly when the expression may guard a policy |
| `Predicate.Checker.Walk` | src/loom/predicate.py:266-298 | appends exactly the problems of the expression, in order |
| `Predicate.Checker.Compare` | src/loom/predicate.py:324-397 | appends what is wrong with a comparison, enum membership included |
| `Predicate.Checker.Contains` | src/loom/predicate.py:400-422 | appends what is wrong with a membership test in a guard |
| `DuckDb.SqlMeansPredicate` | src/loom/query/engines/duckdb.py:468-505 | the compiled statement, with its positional parameters, answers what the predicate means and takes no other's parameters |
| `PlaneAgreement.ParsedLiterals` | src/loom/expr.py:233-250 | a parsed expression has only the literals the planes agree about |
| `PlaneAgreement.ValuesAgree` | src/loom/evaluate.py:211-243 | SQL and the evaluator answer a comparison of two like values alike exactly unless it orders two booleans |
| `PlaneAgreement.LeafPlanesAgree` | src/loom/predicate.py:324-354 | for an accepted comparison, the planes agree about a row exactly when a side is null or missing, or both are carried as one class and it does not order booleans |
| `PlaneAgreement.PlanesAgree` | src/loom/predicate.py:617-709 | for every accepted predicate whose comparisons are each settled so, the lowered folded form means what the evaluator says, and neither meets what it asserts away |
| `PlaneAgreement.StatementAgrees` | src/loom/query/engines/duckdb.py:445-505 | the same, down to the statement and its bound parameters |
| `PlaneAgreement.FoldMeans` | src/loom/predicate.py:546-597 | folding changes no answer, leaves no principal, and always lowers; a missing claim is undecided |
| `PlaneAgreement.UnchainedIsOneClass` | src/loom/predicate.py:496-506 | an accepted comparison is within one class unless both its sides refer to types keyed by references |
| `PlaneAgreement.CannotPartSettles` | src/loom/predicate.py:324-354 | where every comparison is within one class and none orders booleans, the planes agree about every row and caller |
| `PlaneAgreement.DecidedWithoutNulls` | src/loom/predicate.py:657-709 | where every ordering is within one class and not of booleans, a row with nothing null among what the predicate refers to is decided |
| `PlaneAgreement.BooleanOrderSplitsPlanes` | src/loom/predicate.py:324-354 | an accepted boolean order shows a row on one plane and withholds it on the other |
| `Auth.ReadClaims` | src/loom/auth.py:235-272 | the loop keeps exactly the declared claims whose values are of their declared type |
| `Governance.BindMask` | src/loom/governance.py:742-796 | a mask is accepted exactly when every property may be withheld, and then adds those masks and no other |
| `Governance.BindRows` | src/loom/governance.py:796-845 | a policy's row predicate and guard are accepted exactly when both check |
| `Governance.BindPolicies` | src/loom/governance.py:696-845 | policies bind exactly when each fits; then exactly what some policy masks is masked and each type has its row policies in order |
| `Governance.Select` | src/loom/governance.py:441-487 | the set decided for a caller: refused where a conditional program meets nobody, folded otherwise |
| `Governance.ApplyAll` | src/loom/governance.py:441-487 | the filters of exactly the policies whose guard is not false, caller folded in |
| `Governance.PolicySet.BuildPredicate` | src/loom/governance.py:381-399 | the loop builds the conjunction of the type's filters |
| `FailClosed.TruthIsOk` | src/loom/predicate.py:678-709 | an accepted expression never evaluates to something other than a boolean |
| `FailClosed.FewerClaimsSayLess` | src/loom/predicate.py:600-611 | with fewer claims an expression says the same or is undecided |
| `FailClosed.ConjunctionAdmits` | src/loom/governance.py:381-399 | a conjunction admits exactly the rows every part admits |
| `FailClosed.ShownExactly` | src/loom/governance.py:441-487 | a row is shown exactly when no policy that applies to the caller fails to say yes of it |
| `FailClosed.FewerClaimsShowLess` | src/loom/governance.py:441-487 | taking claims from a caller never shows a row that was withheld |
| `FailClosed.DamagedTokenShowsLess` | src/loom/auth.py:235-265 | a token whose claims are each as they were, gone, or not of their declared type reads as fewer claims and shows no row that was withheld |
| `FailClosed.OneClaimDamaged` | src/loom/auth.py:235-265 | so for any set of claims removed, and for one claim replaced by a value not of its type |
| `FailClosed.MorePoliciesShowLess` | src/loom/governance.py:381-399 | adding policies never shows a row or unmasks a property |
| `FailClosed.OrderCannotMatter` | src/loom/governance.py:441-487 | every order of the same policies shows the same rows and masks the same properties |
| `Atomicity.BindsExactly` | src/loom/action/runtime.py:451-476 | a call binds exactly when it names only declared parameters and each reads as its type; what each is bound to |
| `Atomicity.NoFailureIffRulesHold` | src/loom/action/runtime.py:601-618 | validation reports nothing exactly when every rule evaluates to true |
| `Atomicity.EffectsAssign` | src/loom/action/runtime.py:620-648 | effects without failures assign every set property its coerced value, null only where nullable, and no other |
| `Atomicity.PlansExactly` | src/loom/action/runtime.py:381-447 | an addressed attempt writes exactly when its object may be acted on, every rule holds and every effect assigns; otherwise which refusal it is |
| `Atomicity.AtomicChangesOneRow` | src/loom/action/runtime.py:663-791 | the action in one step: rules held of the one shown row under the key, it alone was added, replaced or removed, and every column the effect does not set kept its value |
| `Atomicity.AfterReportsTheRow` | src/loom/action/runtime.py:650-659 | the reported `after` is the written row as the caller sees it exactly when the row is written under the addressed key |
| `Atomicity.WriteKeepsKeysUnique` | src/loom/catalog/pyiceberg_catalog.py:329-374 | over unique keys a write keeps them unique exactly when no row it leaves holds the written key |
| `Atomicity.NowFreeIgnoresClock` | src/loom/evaluate.py:283-303 | an expression without `now()` evaluates alike at every instant |
| `Atomicity.AtomicKeepsKeysUnique` | src/loom/action/runtime.py:478-497 | an action that keeps its key keeps keys unique |
| `Atomicity.SettingTheKeyMayDoubleIt` | src/loom/action/runtime.py:782-791 | a modify that sets the key turns rows `a`, `b` into two rows `b` |
| `Serializability.NextKeeps` | src/loom/catalog/base.py:236-333 | every step of the machine keeps the invariant |
| `Serializability.Serializable` | src/loom/action/runtime.py:381-447 | in every interleaving, a version an action made is that action in one step on the version just before it, and its run reports just that and names that version |
| `Serializability.KeysStayUnique` | src/loom/action/runtime.py:402-424 | no interleaving of creates, modifies and deletes that keep their keys puts one key on two rows |
| `Serializability.StampsTell` | src/loom/action/runtime.py:203-234 | an edit id stamps at most one version; applied stamped one, refused and previewed none, failed landed exactly when its stamp is there |
| `Serializability.LogTells` | src/loom/action/runtime.py:308-345 | a finished recording left its row or says `log_failed`; a stamped version without a row is a crashed, unfinished or `log_failed` run; one row exactly when no append went unanswered |
| `Serializability.LogAgrees` | src/loom/action/log.py:256-286 | a log row is the result the run ended on, but for a word that logging then failed |
| `ActionRuntime.RunAttempt.BindParameters` | src/loom/action/runtime.py:451-476 | the two loops accumulate exactly the binding's failures and values |
| `ActionRuntime.RunAttempt.Key` | src/loom/action/runtime.py:478-497 | the key, or the one failure that there is none |
| `ActionRuntime.RunAttempt.Read` | src/loom/action/runtime.py:501-532 | the one row under the key, none, or an ambiguous key |
| `ActionRuntime.RunAttempt.Validate` | src/loom/action/runtime.py:601-618 | the loop adds every rule's failure, not the first |
| `ActionRuntime.RunAttempt.Effects` | src/loom/action/runtime.py:620-648 | the loop adds every effect's failure and keeps every value that has none |
| `ActionRuntime.RunAttempt.Decide` | src/loom/action/runtime.py:402-435 | the accumulated failures and the plan are the judgement on the rows read |
| `ActionRuntime.RunAttempt.Conflicting` | src/loom/action/runtime.py:795-883 | a declined commit is diagnosed by a second read and ends the last attempt as a conflict |
| `ActionRuntime.RunAttempt.Execute` | src/loom/action/runtime.py:381-447 | one attempt takes the machine's steps and ends where the machine does |
| `ActionRuntime.Lake.CommitWrite` | src/loom/catalog/pyiceberg_catalog.py:376-425 | a commit that lands is the staged rows, stamped, right after the version whose id was read; declined, it is a conflict |
| `ActionRuntime.TryAction` | src/loom/action/runtime.py:154-234 | at most three attempts, each a fresh one; only the third may end as a conflict |
| `ActionRuntime.RecordRun` | src/loom/action/log.py:256-286 | at most three appends take; what comes back is the result with its edit id, and `log_failed` added exactly when the record is lost |
| `ActionRuntime.RunAction` | src/loom/action/runtime.py:154-234 | the result is what the machine's run ended on: applied has its version, refused and previewed none |
| `NonInterference.EvalLocal` | src/loom/evaluate.py:106-150 | an expression's value depends only on the properties it names |
| `NonInterference.JudgeAlike` | src/loom/action/runtime.py:534-597 | on rows that differ in secret only, an attempt refuses alike or plans alike |
| `NonInterference.ChangedAlike` | src/loom/action/runtime.py:858-883 | so does the conflict's account of what changed |
| `NonInterference.NextAlike` | src/loom/catalog/base.py:236-333 | lakes that differ in secret only take the same steps and stay so |
| `NonInterference.MaskedNeverTold` | src/loom/action/runtime.py:578-597 | whatever anyone does, every run ends the same on both lakes and the logs are equal |
| `NonInterference.BoundMasksAreSecret` | src/loom/governance.py:853-878 | what binding refuses to mask is what makes masked columns secret from a run |
| `MaskedReads.GetNeverTells` | src/loom/resolver.py:234-258 | `get` answers alike on lakes that differ in secret only |
| `MaskedReads.SearchNeverTells` | src/loom/resolver.py:264-290 | so does `search`, whatever the filters, limit and offset |
| `MaskedReads.ClausesAvoidHidden` | src/loom/resolver.py:630-703 | no accepted filter reads a masked column |
| `MaskedReads.TraverseNeverTells` | src/loom/resolver.py:292-339 | so does `traverse`, governed at both ends |
| `MaskedReads.BoundMasksHide` | src/loom/governance.py:742-796 | a bound mask withholds neither the key nor a link's end, and a decided predicate names only the row |
| `Resolver.GovernedIffAdmitted` | src/loom/resolver.py:493-518 | the statement's governance clause is true of exactly the rows a run may act on |
| `Resolver.VisibleIffActionable` | src/loom/action/runtime.py:534-576 | over unique keys and for any key, `get` finds an object exactly when the key is not null and a modify or delete of it does not end in `object_not_found`, and shows the run's `before` |
| `Resolver.NullKeyIsNotFound` | src/loom/query/engines/duckdb.py:148-163 | under a null key SQL finds nothing, whatever the rows; over unique keys a run finds the shown row that has none |
| `Resolver.SearchSeesTheShown` | src/loom/query/engines/duckdb.py:445-466 | searching a governed table is searching a table of only its shown rows, paging included |
| `Resolver.SortOrders` | src/loom/query/engines/duckdb.py:540-565 | a page is cut from every selected row, each once, in key order |
| `Filters.AcceptsTheAnnounced` | src/loom/filters.py:159-193 | an operator's value is accepted exactly when it is a scalar or list as announced, null only where announced, and reads as the type, but for `contains` and null |
| `Filters.ObjectAccepted` | src/loom/filters.py:213-255 | an operator object is accepted exactly when it names something, nothing unannounced, and each value is accepted |
| `Filters.KeyOrderIrrelevant` | src/loom/filters.py:248-255 | the clauses do not depend on the order of a JSON object's keys |
| `Filters.MembershipIsUnionOfEq` | src/loom/query/engines/duckdb.py:508-528 | the compiled `in` selects a row exactly when some null-safe `eq` of its elements does |
| `Filters.OneElementIsEq` | src/loom/filters.py:309-342 | a list of one selects what its `eq` selects |
| `Filters.PassesEscapeOnce` | src/loom/query/engines/duckdb.py:55-59 | the three replacement passes escape each special character once |
| `Filters.LoweredFits` | src/loom/filters.py:213-255 | every clause compares its column with constants of the type the column is carried as, and a substring only with text |
| `Filters.FittingIsAnswered` | src/loom/query/engines/duckdb.py:181-206 | so a clause is answered, never an error, of any row of its types |
| `Filters.SubstringSelects` | src/loom/query/engines/duckdb.py:181-206 | a `contains` filter selects exactly the strings that hold its text, letter case aside, wildcards or not |
| `Decimals.AcceptedExactly` | src/loom/model.py:305-341 | an accepted decimal is returned exactly, at the declared scale, within the precision |
| `Decimals.RefusedExactly` | src/loom/model.py:305-341 | a nonzero one is refused exactly when it has too many places or is too large |
| `Decimals.ZeroRefusedExactly` | src/loom/model.py:305-341 | when a zero is refused for its spelling |
| `Decimals.WidePrecision` | src/loom/model.py:305-341 | beyond 28 digits the context's precision decides |
| `Decimals.CoercedAgain` | src/loom/model.py:305-341 | coercing the result again returns it |
| `Coercion.CoercedIsTyped` | src/loom/model.py:190-285 | coercion returns null only for null, and otherwise a value of the declared type, references followed |
| `Coercion.CoercedAgain` | src/loom/model.py:190-285 | what coercion returned it returns again, of every type, except exactly a boolean that stands for a reference |
| `VectorStore.PayloadReads` | src/loom/embed/store.py:127-132 | the length-prefixed payload reads back part by part, over all strings |
| `VectorStore.SameHashSameSource` | src/loom/embed/store.py:100-132 | equal hashes have equal text, model, width and property |
| `VectorStore.LevelIsDone` | src/loom/embed/runtime.py:261-320 | a level sidecar has exactly the keys with text, each with its present hash, and nothing left to embed or prune |
| `VectorStore.ResumesWhereItStopped` | src/loom/embed/runtime.py:408-463 | from wherever a run stopped, the same sidecar is reached and exactly the rest is embedded |
| `VectorStore.StaysUnchanged` | src/loom/embed/runtime.py:372-406 | a run let through by the model check is let through again wherever it stopped |
| `TextScan.CurrentExactly` | src/loom/embed/runtime.py:322-370 | a key is to have a vector, and of which text, exactly when it occurs once, is not null and that row has that text; the order of rows is immaterial |
| `TextScan.Accounting` | src/loom/embed/runtime.py:348-370 | map and counts add up to the rows, less the duplicated keys whose first row had text |
| `TextScan.CurrentText` | src/loom/embed/runtime.py:322-370 | the scanning loop computes that map and those counts |
| `Batches.ZippedIsFresh` | src/loom/embed/runtime.py:436-463 | keys, returned vectors and hashes paired by position give each key of the batch its own text's row |
| `EmbedRuntime.CheckModel` | src/loom/embed/runtime.py:372-406 | refused exactly when another model's vectors are stored and no flag permits it |
| `EmbedRuntime.WriteBatch` | src/loom/embed/runtime.py:436-463 | one batch takes the machine's steps: it asks for its texts' vectors and commits them over the version it read, or lands nothing |
| `EmbedRuntime.Write` | src/loom/embed/runtime.py:408-463 | with nobody else at work, the batch loop leaves the fresh rows of a part of what is due, all of it if nothing failed; what landed is counted |
| `EmbedRuntime.One` | src/loom/embed/runtime.py:261-320 | a run of the machine whoever else acts; undisturbed, orphans go before anything is written, finished is level, stopped is a stopping place; the counts |
| `EmbedRuntime.ReconcileAgain` | src/loom/embed/runtime.py:190-243 | interrupted anywhere and run again with the same flag until it is applied: where nobody else acts, every sidecar is the one a single run leaves, all runs together wrote exactly what was first due, and only the first can be refused |
| `EmbedRuntime.ReconcileAll` | src/loom/embed/runtime.py:190-243 | a model refusal writes nothing anywhere; where nobody else acts, applied levels every type; interrupted leaves earlier types level, the one it stopped at on a stopping place, later ones untouched |
| `Freshness.NextKeeps` | src/loom/embed/runtime.py:408-463 | every step, of a reconcile or of anybody else, keeps each hashed row the vector its model makes of the hashed text |
| `Freshness.FreshMatchIsCurrent` | src/loom/resolver.py:423-442 | in every reachable state, a ranked row with a hash and not reported stale was scored by the vector of the text it shows |
| `Freshness.StaleIffTextMoved` | src/loom/resolver.py:430-442 | a row is reported stale exactly when its text is no longer the one embedded |
| `SchemaEdits.Table.AlterTable` | src/loom/catalog/pyiceberg_catalog.py:250-295 | the staging loop commits the whole list or changes nothing |
| `SchemaEdits.OneTransactionIsOneByOne` | src/loom/catalog/pyiceberg_catalog.py:274-295 | translating paths back through renames commits what applying the edits one by one, under current names, would leave |
| `SchemaEdits.AlteredKeepsIds` | src/loom/catalog/base.py:160-180 | every column keeps its field id and place, and every new id was never used |
| `SchemaEdits.OrderMatters` | src/loom/catalog/base.py:209-221 | for any table and list, an edit of a column is staged exactly when its name is an opening one or an earlier rename took it; where only a later rename does, the list is refused |
| `Migration.CheckRenames` | src/loom/model.py:360-397 | the pass reports nothing exactly when no rename takes a declared column and no two take the same |
| `Migration.PlanIsPlanned` | src/loom/migrate/diff.py:204-248 | a plan under the rename rules is a list the transaction can translate |
| `Migration.MigrationReaches` | src/loom/migrate/diff.py:204-248 | applied to the table it was made from, a plan reaches the declared columns, keeps every other column and id, and planned again asks for nothing |

## Left out

- Atomicity.BindsExactly: how numbers, dates and timestamps are spelled as text is a parameter (`Host`); datetime parsing is not modelled.
- Decimals.CoercedAgain: a decimal is read and returned exactly; arithmetic on decimals and doubles is over exact reals, with no rounding, no NaN and no decimal context.
- Serializability.Serializable: a table is one history of versions with ids never used twice; rolling a table back to an old snapshot, or dropping and recreating it, is not modelled.
- Serializability.LogTells: a crash is a step of its own, and covers an error from a port that is not caught; an append either lands whole or not at all.
- ActionRuntime.RunAction: one table, one clock reading per evaluated expression; the prune of a deleted object's vector is a step of `Freshness`; here its failure is a commit that fails without landing.
- NonInterference.MaskedNeverTold: the snapshot id a conflict reports as found afterwards is not part of a result.
- Filters.SubstringSelects: letter case is ASCII, as in `lower`, `upper` and the lexer's character classes.
- Resolver.SortOrders: strings order by code point, not by an engine's collation; rows with one key keep their scan order.
- Resolver.SearchSeesTheShown: rows hold what their properties are carried as; a table whose columns disagree with its declaration is not modelled.
- Filters.AcceptsTheAnnounced: which JSON scalar type a schema names is not compared with the value, only its shape and whether it may be null.
- EmbedRuntime.ReconcileAgain: the time a vector was embedded is not part of the sidecar's state; runs between which somebody else acts keep every property of `Freshness` and no promise of reaching the same sidecar.
- Freshness.FreshMatchIsCurrent: hashes have no collisions, and a model is a function of its name, a width and a text.
- SchemaEdits.OneTransactionIsOneByOne: columns are flat; whether a type widens is a parameter of the plan.
- Ranked search (`match` with `via` hops, the semi-join and the score): only its staleness flag is modelled.
- Parsing of YAML, configuration, the loader, schema inference and message wording.
- The command line, the MCP server, the dashboard and the examples.
- Token verification, key fetching and embedding providers.
- Ingest, and the migration executor's ordering of several tables and its history table.
- Chains of references that close on themselves end as a refusal instead of a loop.
