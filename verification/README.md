# Ythril: what its hard cores promise

This project models the parts of Ythril where a mistake costs most, and proves what the code and its own comments promise of them.

- **The contradiction resolve protocol** (`Contradiction*.dfy`). Each call to the store is one atomic step (`ContradictionModel.Step`);
  many candidates, many requests in flight, failures at any call, stale claims taken over, dismissals and reopens, and the scanner that
  writes the same candidates. `Space` is the routes' own code over the collections it updates, proved to make exactly those steps.
- **The cost of a rule** (`Rule*.dfy`). `analyse` prices a CEL syntax tree before anything evaluates it. The price is proved to bound what
  an evaluator evaluates, scans and copies, through a measure that survives loops over lists other loops built; `Visitor` is the walk over
  its own counters. What is accepted, told and read is stated on the rule's tree, and what is read is proved to decide the answer.
- **The schema parse** (`SpaceMeta*.dfy`). Parsing only what differs from what is stored, against parsing it whole; reading back what a store
  holds part by part; and what each accepts, said of the schema alone.
- **The canonical text** (`Canonical*.dfy`). Two values have one text exactly when they are equal up to the order of keys.
- **The TypeScript printer and its reader** (`Identifiers.dfy`, `ReadBack.dfy`, `ReadNotes.dfy`). Names that never collide, and what of a
  declared property comes back.
- **Bounded structures** (`LruMap.dfy`, `TextRender.dfy`, `DocRender.dfy`). The weighted cache, the log-line renderer, the pixel clamp and the
  walk over windows of pages.

## What was found

Where a promise does not hold of the code as it stands, the code is modelled as it is, the exact condition is proved, and a run or an
input that shows it is given.

1. **A takeover cut off between its claim and dropping the old record** (`contradictions.ts:488-495` and `512-520`). Repeated with the same
   choice it no longer counts as a takeover, so the edge and mark the first choice recorded are never undone: the pair is linked both
   ways, against `contradictions.ts:240-244`. From every claimable candidate, retrying converges if and only if the resolve does not take
   over another choice's claim of whose record something stands, or is the very edge, or an unneeded mark, it is about to write
   (`RetryConverges`, `CutTakeoverDiverges`, `CutTakeoverRuns`).
2. **Returning to the first choice after that** takes over a claim whose record is its own effects; the second undo (`contradictions.ts:602`) takes
   back the edge and mark just written, and the candidate closes over an unmarked loser, or without its edge even where none stood before.
   `TakeoverEnds` gives the whole end of every takeover, `TakeoverMarksItsLoser` and `TakeoverKeepsItsEdge` say exactly when either is
   lost, `UndrawnEdgeRuns` gives the second run, and `SerialKeepsLosersMarked` shows that, one request
   at a time, nothing else ever leaves a loser unmarked.
3. **A dismiss or reopen cut off after its update** (`contradictions.ts:160-182`, `656-659`) has taken the claim off already, so repeating it finds
   nothing to undo: what the claim had recorded and was not yet undone stays for good. `CutReleaseOrphans` says exactly which.
4. **The scanner's writes are not guarded** (`contradiction-candidates.ts:161-173`). A candidate resolved between the scanner's read and its
   write is reopened with its resolution still on it, or deleted. A resolution lasts if and only if no such write lands
   (`ResolutionLasts`, `ScanReopensResolved`).
5. **An unknown kind that holds no types** is passed over by the parse against a store (`space-meta.ts:728-735`) and stored, where the whole
   parse refuses it. `AgainstDiffersExactly` says exactly when the two parses differ, `EmptyUnknownSlipsIn` gives the input, and
   `TolerantParsesAgree` shows the tolerant parse is not affected.
6. **A boolean's enum does not come back** from TypeScript, and where it listed both values that is not said (`from-typescript.ts:466`, `474`); an
   untyped enum that lists a boolean beside anything else is refused, and one of a single base type comes back typed. **An untyped
   property's description** that looks like a note is read as that note (`from-typescript.ts:373-389`). `TypedReadsBack`,
   `UntypedReadsBack`, `BooleanEnumIsLost`, `NotesReadBack`, `UntypedDescription` and `DescriptionTakenForNote`.

## Model

| member | source | states |
|---|---|---|
| ContradictionSpace.Space.ResolveCandidate | server/src/api/contradictions.ts:458-648 | The route's code over the collections leaves, wherever a store call fails, exactly what that many steps of the protocol leave, and an answer means the request is done |
| ContradictionSpace.Space.UndoClaim | server/src/api/contradictions.ts:347-371 | The undo deletes the recorded edge and lifts the recorded mark unless an edge or another pair needs it, call by call as the protocol does, and says whether it lifted |
| ContradictionSpace.Space.Release | server/src/api/contradictions.ts:160-182 | A dismiss or reopen takes the claim off in its guarded update and then undoes what the claim recorded, as the protocol does |
| ContradictionSpace.Space.ClaimCandidate | server/src/api/contradictions.ts:482-496 | The claim matches a candidate no other choice holds freshly and that is not resolved, sets its fields one by one, and answers the candidate as it was |
| ContradictionSpace.Space.TakeOver | server/src/api/contradictions.ts:514-524 | A takeover undoes the other choice's record, drops it from the claim, and reads the pair again when a mark was lifted |
| ContradictionSpace.Space.DrawEdge | server/src/api/contradictions.ts:530-571 | The edge is recorded before it is drawn, only when it is not there, and unrecorded when the schema refuses it |
| ContradictionSpace.Space.MarkLoser | server/src/api/contradictions.ts:580-587 | The mark is recorded before it is set, and only on a loser that exists and is not marked |
| ContradictionSpace.Space.CloseCandidate | server/src/api/contradictions.ts:607-619 | The close lands only under the choice's own claim or its own resolution |
| ContradictionSpace.Space.LoseClaim | server/src/api/contradictions.ts:634-645 | A request that lost its claim keeps what it wrote when the same choice closed, and otherwise undoes its own |
| ContradictionRetry.FreshClaimKeepsOut | server/src/api/contradictions.ts:307-324 | While another choice's claim is no more than 600 000 ms old, or the candidate is resolved or gone, a resolve leaves the whole store as it was, however many of its calls are made |
| ContradictionRetry.UnheldIsClaimed | server/src/api/contradictions.ts:482-496 | A candidate that is not resolved and whose claim is absent, the same choice's, or older than that is claimed by the second call, with what an earlier claim recorded kept |
| ContradictionRuns.ResolutionLasts | server/src/brain/contradiction-candidates.ts:161-173 | Over every interleaving of resolves, dismissals, reopens, failures, scans and outside writes to edges, records and marks, each resolution once made lasts unchanged if and only if no reopen or delete of the scanner lands on a candidate resolved since the scanner read it |
| ContradictionRuns.ResolutionIsFinal | server/src/api/contradictions.ts:605-619 | In every such run without such a scanner write, between any two points a resolved candidate carries no claim and its resolution and loser do not change |
| ContradictionRuns.DoKeeps | server/src/brain/contradiction-candidates.ts:58-84 | One act of any actor keeps every resolution if and only if it is not such a write |
| ContradictionRuns.ScanReopensResolved | server/src/brain/contradiction-candidates.ts:171-174 | A run that reaches it from any store with a dismissed candidate: it ends open with its resolution still on it |
| ContradictionRuns.OneChoiceWrites | server/src/api/contradictions.ts:307-324 | In every interleaving whose clocks stay within ten minutes of the claims they meet, without a dismiss, reopen or scan of a pair in hand, all edges drawn and marks set for one pair are one choice's |
| ContradictionRuns.StandingEdgesAreOwned | server/src/api/contradictions.ts:248-253 | With takeovers, dismissals, reopens and cut-off resolves, once nothing is in flight an edge a run drew stands only for a candidate closed by the choice that draws it, or recorded on the pair's live claim of that choice; never both ways |
| ContradictionRuns.StepKeeps | server/src/api/contradictions.ts:605-619 | Every store call of every request keeps resolved candidates as they are |
| ContradictionRuns.CalmRunsTakeNothingOver | server/src/api/contradictions.ts:307-324 | Where no clock that claims a pair runs more than ten minutes past a standing claim of the other choice, no claim is ever taken over |
| ContradictionSerial.WholeIsDone | server/src/api/contradictions.ts:458-648 | Every request ends within 32 store calls, whatever it finds |
| ContradictionSequences.SerialKeepsLosersMarked | server/src/api/contradictions.ts:340-345 | Over any sequence of requests on any candidates, each cut off anywhere, every candidate closed as superseded has its loser marked at every point if and only if no call is a whole takeover of a claim that had recorded the very mark it needs, with nothing else pointing at the record |
| ContradictionSequences.ServedKeeps | server/src/api/contradictions.ts:340-345 | The same for one call cut anywhere, from any sound store whose losers are marked, whatever its claims had recorded |
| ContradictionSequences.ServedRecordsItsOwn | server/src/api/contradictions.ts:512-520 | One call leaves on a claim what is not its own choice's if and only if it is cut inside a takeover |
| ContradictionSequences.UncutTakeoversKeepLosersMarked | server/src/api/contradictions.ts:340-345 | No sequence cut anywhere but inside a takeover leaves a loser unmarked |
| ContradictionSerial.UndoTakesOnlyTheRecorded | server/src/api/contradictions.ts:335-339 | From any store, a request alone, cut anywhere, deletes no edge and lifts no mark but those the claim had recorded when it arrived |
| ContradictionSerial.OnlyUndoTakes | server/src/api/contradictions.ts:335-339 | Outside an undo no edge and no mark goes |
| ContradictionSerial.RecordsOnlyNew | server/src/api/contradictions.ts:543-587 | A resolve records on its claim an edge only while it is not drawn and both its ends exist, and a mark only while its record exists and carries none, after a takeover too |
| ContradictionSerial.RefusedIsUnrecorded | server/src/api/contradictions.ts:561-571 | Past its edge, what a resolve's claim records of an edge is one that stands or one recorded before it began: a refused one is off the record again |
| ContradictionSerial.MarksStayOnRecords | server/src/api/contradictions.ts:580-587 | No step of any request marks a record that is not there |
| ContradictionSerial.CloseAgain | server/src/api/contradictions.ts:605-619 | Closing again what the same choice closed changes nothing and ends the request |
| ContradictionConvergence.RetryConverges | server/src/api/contradictions.ts:230-247 | From every claimable candidate, any number of cut-off attempts with one choice, then one whole, end as one uninterrupted resolve does, if and only if it does not take over another choice's claim of whose record something stands or is about to be written |
| ContradictionRetry.SettleReachesGoal | server/src/api/contradictions.ts:232-232 | Where it takes over nothing, from wherever cut-off attempts left it, a whole resolve ends with the candidate closed by its choice, the edge from winner to loser drawn exactly when both ends exist, the kind is no edge and the schema allows, the loser marked exactly when it exists and is no file, and nothing else changed |
| ContradictionConvergence.CutTakeoverDiverges | server/src/api/contradictions.ts:512-520 | A takeover cut right after its claim and repeated adds its own edge and mark beside the old ones; whole, it undoes the old record; the two differ exactly under that condition |
| ContradictionTakeover.TakeoverEnds | server/src/api/contradictions.ts:514-602 | An uninterrupted takeover, whatever the claim it took had recorded, ends as if the resolve were made and that record then undone exactly: the whole store |
| ContradictionTakeover.TakeoverTakes | server/src/api/contradictions.ts:514-520 | Where that record was its own choice's, it ends as a resolve from the store in which the recorded edge was deleted and the recorded mark lifted unless needed |
| ContradictionTakeover.TakeoverMarksItsLoser | server/src/api/contradictions.ts:590-602 | A whole takeover leaves its loser marked if and only if the claim it took had not recorded that very mark with nothing else pointing at the record |
| ContradictionTakeover.TakeoverKeepsItsEdge | server/src/api/contradictions.ts:590-602 | A whole takeover ends with its edge if and only if the edge stood or is drawn and the claim it took had not recorded that very edge |
| ContradictionConvergence.CutTakeoverRuns | server/src/api/contradictions.ts:512-520 | From a fresh candidate, two cut resolves reach a pair that closes linked both ways, and one that closes with its loser unmarked and its edge gone |
| ContradictionConvergence.UndrawnEdgeRuns | server/src/api/contradictions.ts:548-553 | The same where the first was cut before drawing the edge it had recorded: the whole takeover loses its edge, the cut and repeated one keeps it |
| ContradictionRelease.ReleaseEnds | server/src/api/contradictions.ts:160-182 | A whole dismiss or reopen releases its candidate and undoes the claim's record exactly, and changes nothing where its guard fails |
| ContradictionRelease.RepeatDoesNothing | server/src/api/contradictions.ts:656-659 | What a release cut after its update leaves, call by call, and that repeating it changes nothing |
| ContradictionRelease.CutReleaseOrphans | server/src/api/contradictions.ts:656-659 | Cutting and repeating a release converges if and only if the claim's record had nothing to undo; otherwise which cuts orphan the edge and which the mark |
| RuleKinds.AcceptedRuleIsBounded | schema/src/rules.ts:180-312 | A rule the analysis accepts evaluates at most 30 nodes, scans at most 6 000 code points and copies at most 60 caps for each unit of its price, on every record within the input caps |
| RuleCopies.PriceBoundsWork | schema/src/rules.ts:17-22 | The same for any tree of macro loops outside one another's bodies, whatever its loops build from what other loops built |
| RuleCopies.PartCopies | schema/src/rules.ts:267-268 | What the `+` of a part copy each time it is evaluated is within its price |
| RuleCopies.LoopCopiesPaid | schema/src/rules.ts:287-302 | The elements of a loop together pay for what its turns copy, a building macro's append counted as the element appended |
| RuleKinds.BudgetBoundsWork | schema/src/rules.ts:77-84 | A set of accepted rules within the budget evaluates, scans and copies at most a fixed amount on any record |
| RuleBudget.PartFits | schema/src/rules.ts:211-308 | The invariant: a value's load is within its priced size compounded by the bulk of its tree, and its work within its price |
| RuleBudget.LoopFits | schema/src/rules.ts:287-302 | A loop's own step: what it runs over, gathers and scans stays within the price of a loop over its range |
| RuleBudget.ScanFits | schema/src/rules.ts:264-265 | A scan reads no more than its subject's priced caps hold |
| RuleLoop.BuildLoop | schema/src/rules.ts:287-302 | A `map` or `filter` loop appends at most one value an element, and its elements together pay for what it builds, evaluates and scans |
| RuleLoop.GatherLoop | schema/src/rules.ts:287-302 | An `all`, `exists` or `exists_one` loop keeps a scalar, and its elements together pay for what it evaluates and scans |
| RuleBody.BodyHolds | schema/src/rules.ts:220-286 | A loop-free expression holds at most its priced size and literals times what its variables hold, and costs at most its price |
| RuleValue.CapsBound | schema/src/rules.ts:62-69 | A value within the input caps weighs at most two caps and loads at most six, however deep |
| RuleValue.VisitedLoad | schema/src/rules.ts:90-95 | The elements a loop visits, counted twice and weighed, are at most a hundred times the value's load |
| RulePrice.CostScales | schema/src/rules.ts:215-218 | A part that is priced for `m` runs costs `m` times one run, loops within it included |
| RuleCaps.PowWithinLimits | schema/src/rules.ts:60-61 | Literals, priced at nothing, compound to less than ten times within the node and length limits |
| RuleAnalysis.Visitor.Analyse | schema/src/rules.ts:180-312 | The walk over mutable counters finds exactly the nodes, price, problems, reads, patterns and kinds of the analysis as functions of the tree |
| RuleAnalysis.Visitor.Visit | schema/src/rules.ts:215-307 | Visiting a part adds its nodes, its price where it stands and what it meets, answers its size, and leaves the loop variables and depth as they were |
| RuleAnalysis.Visitor.Field | schema/src/rules.ts:188-202 | A field read narrows an unnamed rule to the kinds that have it, is a problem when no kind or a named kind lacks it, and is recorded unless only tested |
| RuleAnalysis.Visitor.VisitLoop | schema/src/rules.ts:287-302 | A comprehension is visited with its variables in scope for body and result, one loop deeper for the body, and its body priced per element |
| RuleAnalysis.Visitor.VisitStruct | schema/src/rules.ts:278-286 | A map's keys and values are met in turn, a message's values alone, and their counts, sizes and price add up |
| RulePlaces.AcceptsExactly | schema/src/rules.ts:180-312 | A rule is accepted exactly when it has at most 200 nodes, each a known function, a bound variable, a type or `self`, a field its kinds have and no edge's end, a property its type declares, a written pattern and no loop inside a loop, and, where it names no kinds, some kind has every field it names |
| RulePlaces.FindsExactly | schema/src/rules.ts:188-209 | What the analysis of an accepted rule finds is exactly what the rule's nodes read: the record whole, each field and property by value, each property tested for, each pattern, and the kinds that have all its fields |
| RulePlaces.TellsExactly | schema/src/rules.ts:184-186 | Each problem told is one some node of the rule has, none is told twice, at most five are, and fewer than five are all there are |
| RuleReads.ReadsDecide | schema/src/rules.ts:128-138 | Two records with the same fields that agree on what an accepted rule is found to read get the same answer by the same work, from any two engines that agree on the operators and the known functions |
| RulePriced.PriceIsSum | schema/src/rules.ts:215-302 | The price is the sum over the rule's nodes of how often each can run, a hundred times a loop's range each level, times one, a hundred for each cap it scans, and each cap it copies |
| RulePriced.ReadIsPriced | schema/src/rules.ts:93-98 | A read is priced for exactly what a loop over it can visit within the input caps: the properties for their 200 entries, another field for a list's 100 |
| RuleKinds.SaveAndRunAgree | schema/src/rules.ts:601-609 | A space rule that names no kinds compiles for a kind exactly when it is accepted at save with that kind left in, with the same reads, and is accepted exactly when some kind can use it |
| RuleKinds.NamedKindsAgree | schema/src/rules.ts:454-457 | A rule that names its kinds is accepted at save exactly when it compiles for each of them, with the same reads |
| RuleKinds.AcceptedIsMacroRule | schema/src/rules.ts:288-288 | A rule with no problem has no loop inside a loop's body, so its macro loops are of the priced shape |
| SpaceMeta.AgainstIsWhole | schema/src/space-meta.ts:710-777 | Over a store that parses whole, parsing only what differs accepts what the whole parse accepts and gives the same schema, rule counts and budgets included, for a schema with no empty unknown kind |
| SpaceMeta.AgainstDiffersExactly | schema/src/space-meta.ts:716-737 | The two parses differ exactly when the schema names an empty kind this release does not know and the rest is accepted |
| SpaceMeta.AgainstIsWholeOfTheRest | schema/src/space-meta.ts:716-737 | For every schema, the parse against a store accepts exactly when the whole parse accepts it without its empty unknown kinds |
| SpaceMeta.EmptyUnknownSlipsIn | schema/src/space-meta.ts:728-734 | An empty unknown kind is accepted and kept beside an empty store, and refused whole |
| SpaceMeta.ChangedApplies | schema/src/rules.ts:502-538 | The applicable-rule check of what changed, with what held when it was stored, is the whole check |
| SpaceMeta.PutBackIsParsed | schema/src/space-meta.ts:761-776 | The parts put back, parsed where they were parsed and carried where they were not, are the whole parse's result |
| SpaceMetaAccepted.WholeAccepts | schema/src/space-meta.ts:454-483 | The whole parse accepts a schema exactly when every field is known and valid, every kind and name allowed, every definition valid with its own rules within the budget, every space rule applicable, and on each kind some rule governs at most 50 rules apply to one record and together keep within the budget |
| SpaceMetaAccepted.WholeGives | schema/src/space-meta.ts:710-747 | And gives it back as it is, but for a definition a reference brought along, taken back to the reference |
| SpaceMetaAccepted.AgainstAccepts | schema/src/space-meta.ts:716-759 | Over any store, valid or not, a schema is accepted exactly when every part the store does not hold is valid, new space rules are applicable, and where the rules or a type are new the limits hold; nothing is asked again of what is held |
| SpaceMetaAccepted.AgainstGives | schema/src/space-meta.ts:761-776 | And is given back as offered, but for a new definition a reference brought along |
| SpaceMetaAccepted.HeldIsAccepted | schema/src/space-meta.ts:703-709 | What a store holds, valid today or not, is taken again as it is |
| SpaceMetaStore.ParseSpaceMeta | schema/src/space-meta.ts:710-777 | The loops that build what is parsed and put the parts back compute the parse as specified, strict or tolerant, whole or against a store, and accept exactly what the next row says |
| SpaceMetaStore.ParseAccepts | schema/src/space-meta.ts:710-777 | Strict or tolerant, whole or over any store, the parse accepts exactly the schemas described above, without the fields the server writes, and tolerantly of what this release knows |
| SpaceMetaStore.ReadKnownKeeps | schema/src/space-meta.ts:623-646 | The tolerant reading keeps every known field, kind and type and no other, and of a definition what it knows |
| SpaceMetaStore.TolerantParsesAgree | schema/src/space-meta.ts:779-782 | A peer's schema read tolerantly is accepted and read the same against a store as whole |
| SpaceMetaStore.StoreStaysWhole | schema/src/space-meta.ts:561-567 | What is accepted over a store that parses whole parses whole to itself again |
| SpaceMetaStore.ReadKnownMeta | schema/src/space-meta.ts:623-646 | The tolerant reading drops the keys, kinds and fields of a definition that are not known, and keeps everything else |
| SpaceMetaStore.ReadStoredMeta | schema/src/space-meta.ts:794-833 | Reading back gives the whole parse when it succeeds and otherwise every part that is valid alone, naming each of the others |
| SpaceMetaStore.KeptIsWhole | schema/src/space-meta.ts:800-833 | What is read back parses whole to itself |
| SpaceMetaStore.KeptIsGreatest | schema/src/space-meta.ts:784-793 | Any selection of the stored parts that parses whole is, parsed, part of what is read back |
| SpaceMetaStore.ReadBackIsStable | schema/src/space-meta.ts:794-833 | Reading back what was read back leaves nothing out and changes nothing |
| SpaceMetaStore.LeftOutIsInvalid | schema/src/space-meta.ts:809-828 | What is left out is exactly the fields, types, and kinds or types that are no object which do not parse on their own, and every other part is kept |
| SpaceMetaStore.KindsKept | schema/src/space-meta.ts:816-828 | A kind of types is kept exactly when one of its types is, or it held none to begin with |
| SpaceMetaStore.WholeIsKept | schema/src/space-meta.ts:804-805 | When the whole parse succeeds, reading part by part would have given the same and skipped nothing |
| LruMap.Cache.Get | schema/src/lru-map.ts:51-57 | A hit gives the value, cuts its entry out and puts it last, leaves the others in their order, and changes no weight; a miss changes nothing |
| LruMap.Cache.Set | schema/src/lru-map.ts:65-78 | Storing drops exactly the shortest least-recently-used prefix that brings the count and the weight within bounds, telling each one dropped, and the total stays the sum of what is held |
| LruMap.Cache.Forget | schema/src/lru-map.ts:99-105 | The one place an entry leaves takes its weight off the total, and the rest keep their order |
| LruMap.Dropped | schema/src/lru-map.ts:73-77 | The number dropped is the least that brings the rest within the bounds |
| LruMap.HeavyEmpties | schema/src/lru-map.ts:26-28 | An entry heavier than the whole bound leaves the cache empty, where weights do not count down |
| LruMap.LargerIncludesSmaller | schema/src/lru-map.ts:37-106 | Used the same way, a larger cache holds everything a smaller one does, in the same order of use with the same values, and never more than the difference of the bounds besides |
| LruMap.LeastRecentlyUsedGoes | schema/src/lru-map.ts:10-19 | In a cache bounded by count, a key used by `get` or `set` stays, whatever is done with others, while fewer other keys than the bound have been used since, and, where nothing is deleted, no longer |
| CanonicalEquality.CanonicalDecidesEquality | schema/src/canonical-json.ts:35-53 | Two values have the same canonical text exactly when they are equal up to the order of keys at every level |
| CanonicalEquality.SameIsWritten | schema/src/canonical-json.ts:35-45 | Equal up to the order of keys is equal once copied and stripped of what JSON.stringify leaves out |
| CanonicalEquality.CopyIsNormal | schema/src/canonical-json.ts:35-45 | The sorted copy is a normal form: copying it again changes nothing |
| CanonicalEquality.CopyIs | schema/src/canonical-json.ts:37-43 | A record's copy holds each entry's copy but `__proto__`'s, with array indices first by number and the rest in UTF-16 order |
| CanonicalEquality.CopyKeysRise | schema/src/canonical-json.ts:39-41 | In a record's copy array indices come first and rise by number, and every later key either begins the next or differs from it first by a smaller UTF-16 unit |
| CanonicalEquality.CanonicalReadsBack | schema/src/canonical-json.ts:51-53 | Read as JSON, the canonical text gives back the sorted, stripped copy, the same tree in the same order |
| CanonicalEquality.CopySorted | schema/src/canonical-json.ts:35-45 | The loop over sorted keys builds exactly that copy |
| CanonicalPrint.PrintIsInjective | schema/src/canonical-json.ts:51-53 | Printing by the rules of JSON.stringify (section 25.5.2 of ECMA-262) gives different texts to different trees |
| CanonicalPrint.TextReadsBack | schema/src/canonical-json.ts:51-53 | A JSON reader reads every printed tree back whole: each separator, literal and escape stands for what the grammar (ECMA-404) says |
| CanonicalPrint.QuotedIsWellFormed | schema/src/canonical-json.ts:51-53 | A quoted text is well-formed UTF-16 and holds no control, whatever the text |
| CanonicalPrint.PlainIsQuoted | schema/src/canonical-json.ts:51-53 | A text with no control, quote, backslash or lone surrogate is quoted as it is |
| CanonicalPrint.QuotedIsUnique | schema/src/canonical-json.ts:51-53 | A quoted string, escapes and lone surrogates included, is read back from any text it starts |
| CanonicalJson.BeforeIsOrder | schema/src/canonical-json.ts:18-20 | The order keys enumerate in is a strict total order |
| CanonicalJson.LessIs | schema/src/canonical-json.ts:15-16 | One key sorts before another exactly when it begins it, or its unit is the smaller at the first place they differ |
| CanonicalJson.IndexIs | schema/src/canonical-json.ts:18-20 | The keys enumerated first are exactly the decimal texts of the numbers below 4 294 967 295 |
| Identifiers.Allocator.Allocate | schema/src/typescript.ts:159-173 | The base allocated is the first free one counted from the name itself, its two interface names are new, and the probe ends |
| Identifiers.AllocateAll | schema/src/typescript.ts:153-173 | For any list of names, all interface names allocated are pairwise distinct and none is the map's |
| Identifiers.NamesDiffer | schema/src/typescript.ts:165-171 | Two suffixes of one name never share an interface name, `Stored` endings and digits included |
| Identifiers.BaseIs | schema/src/typescript.ts:165-171 | The bases tried for a name are the name itself and then the name with the decimal of 2, 3 and so on |
| ReadBack.TypedReadsBack | schema/src/from-typescript.ts:444-485 | A typed property reads back as its base type, required exactly when required without a default, with its filtered enum in order; it is refused exactly when no value is left, and only a boolean's enum is lost |
| ReadBack.UntypedReadsBack | schema/src/from-typescript.ts:444-485 | An untyped property reads back untyped for either kind of record; an enum without booleans in order, with a base type where it has one; booleans alone as any boolean; a boolean beside anything else, or no value, refused |
| ReadBack.EnumComesBack | schema/src/from-typescript.ts:415-421 | An enum comes back in the order it was written, whatever order the compiler keeps a union in |
| ReadBack.FilteredIsTheEnum | schema/src/typescript.ts:227-236 | The enum as it is written is the declared one's values of the declared type, a date's being strings, each once, in the order they were first listed |
| ReadBack.BooleanEnumIsLost | schema/src/from-typescript.ts:466-474 | A boolean whose enum lists a value reads back as any boolean, and that its enum is lost is said only when it held one value |
| ReadNotes.TypedNotesReadBack | schema/src/from-typescript.ts:368-389 | The notes of a typed property read back as exactly the fields it sets and whether it is described, whatever any of them says |
| ReadNotes.NotesReadBack | schema/src/from-typescript.ts:368-389 | The notes of any property read back as the fields it sets and whether it is described, but for an untyped description that looks like the note of a field that could come first: that field is read, and no description |
| ReadNotes.NotReadIsNamed | schema/src/from-typescript.ts:368-389 | For any property, each field is named as not read exactly when it is set, a date for a type, and `required` only beside a default; besides them only the one field an untyped description is taken for |
| ReadNotes.TypedLossIsNamed | schema/src/from-typescript.ts:388-391 | What of a typed property TypeScript cannot carry is named, in the fields' order: a date's type, each field its notes hold, and `required` only beside a default |
| ReadNotes.NotedFields | schema/src/from-typescript.ts:373-389 | The loop up from the last line names the description and the noted fields in the fields' order |
| ReadNotes.UntypedDescription | schema/src/from-typescript.ts:368-389 | Without a type, a description is read as one exactly when it does not look like the note of a field that could come first |
| ReadNotes.DescriptionTakenForNote | schema/src/from-typescript.ts:373-389 | An untyped property described as `pattern ...` reads back with no description |
| ReadNotes.CommentTextIsSafe | schema/src/typescript.ts:122-132 | Schema text in a comment has no line break, cannot close the comment, has no `@` before its first other character, and is there exactly when it was not empty |
| ReadNotes.CommentTextKeepsText | schema/src/typescript.ts:122-132 | Making a text safe adds and takes nothing but backslashes, blanks and line breaks |
| ReadNotes.NotesSay | schema/src/typescript.ts:239-250 | Each field a property sets has a note that names it and says its value, but for backslashes, blanks and line breaks |
| TextRender.Render | schema/src/text.ts:151-172 | The renderer, its short-value path included, gives what the full walk gives |
| TextRender.RenderedIsOneLine | schema/src/text.ts:140-172 | A rendered value has no line-breaking character; its text is at most `max` characters, the escape of a whole number of code points of what was redacted, as many as fit; and the mark counts what was left out |
| TextRender.PlainWalk | schema/src/text.ts:155-156 | A short text with nothing to escape is walked to its end unchanged |
| TextRender.EscapeSays | schema/src/text.ts:80-84 | An escape says the number of the character it stands for, in one letter for a return, a line feed and a tab and in four digits otherwise |
| TextRender.DecimalReadsBack | schema/src/text.ts:140-172 | The number in the mark, read back, is how many characters were left out |
| DocRender.ClampScale | sidecars/doc-render/app.py:86-100 | The reducing loop ends whatever the first guess, and gives the clamped scale |
| DocRender.Clamped | sidecars/doc-render/app.py:86-100 | A positive clamped scale gives a rounded-up pixel count within the cap |
| DocRender.ClampIsSolved | sidecars/doc-render/app.py:89-98 | With the square root exact, the clamp is the quadratic's solution, fits at once and never exceeds the scale asked for |
| DocRender.ReducedIsLast | sidecars/doc-render/app.py:98-100 | No more is taken off the first guess than must be: what was tried just before did not fit |
| DocRender.SkippedExactly | sidecars/doc-render/app.py:132-145 | With the root exact, a page is passed over exactly when it has no size, when fewer than 72 dots an inch were asked for, or when neither what was asked nor 72 fits the cap |
| DocRender.SolvedEncloses | sidecars/doc-render/app.py:89-92 | At the solution the page enlarged by a pixel a side encloses exactly the cap |
| DocRender.RenderWindow | sidecars/doc-render/app.py:115-155 | A window meets every page from its start to its end once, advances when it is not empty, holds more than the response cap only with a single image, and stops early only at an image that would pass it |
| DocRender.WalkDocument | sidecars/doc-render/app.py:21-25 | Stepping each window by the pages returned and skipped ends and meets every page of the document once, in order |

## Left out

The contradiction protocol:

- Routing, rights, rate limits, webhooks, audit rows and the bodies and notes of answers.
- OneChoiceWrites: stated for runs in which no clock passes a standing claim of the other choice by ten minutes, without dismissals and reopens, and without a scan that deletes a claimed candidate; with them, what holds is `StandingEdgesAreOwned`.
- StandingEdgesAreOwned: lets a request be cut off anywhere but in two places. One is between taking a claim over, or off, and deleting the edge it had recorded, where an edge is orphaned (`CutTakeoverRuns`, `CutReleaseOrphans`). The other is with its own edge standing when the pair's claim does not record that edge any longer, the crash `contradictions.ts:595-598` names, or when another request of the same choice may still take the record off. No edge is drawn or deleted from outside and no scan deletes a claimed candidate. For marks, what is stated is the serial results.
- A wipe of a space deletes its candidates, resolved ones too.
- UndoTakesOnlyTheRecorded: stated for one request at a time; a mark or edge made by hand between a request's read and its write is that request's record in the code too.
- An existing edge is known by its id alone, so a fork of an edge (`CHOSEN_VERSION_ROWS`) is not modelled. The undo's bookkeeping between calls is not a store call, so where nothing was recorded it takes no step of its own in the source.
- The clock is a number each request reads once.

The rules:

- The CEL parser, the regex engine and the trial evaluations on sample records: a rule is its syntax tree, and a function of the engine is any function that is `Modest` (its result holds no more than its operands and a hundred characters).
- AcceptedRuleIsBounded: asks that a record's map keys are within the string cap, which the caps bound for values; that every loop is written by a macro of the language; and that the string literals of a rule hold at most as many characters as its text may. Both sides of `&&` and `||` are counted.
- PriceBoundsWork: a building macro's accumulator step counts as an append of one element; an engine that copies the list gathered so far at every step does more.
- Analyse: an index has no call target, and a literal has a key expression for every value or for none, as the parser writes them.
- Fractions of a cap are reals; sizes, prices and counts are unbounded integers, which the limits keep far below the source's exact range.
- ReadsDecide: asks that the two records have the same top-level fields, as two views of one kind do (`schema/src/view-fields.ts`), because `has(self.<field>)` is not among the reads that are found, and that every loop is written by a macro. An index by a text key answers what a table holds under it; every other function is the engine's.
- SaveAndRunAgree: is about the analysis; the pattern compilation and the trial evaluations that a save also asks for, and the verdict cache, are left out.

The schema parse:

- The body's single-field and single-definition checks are parameters; the strict body's own rule, that it takes a definition only when it knows all of it, is asked for where it is needed (`ReadBackIsStable`). Objects are maps, so the order of keys is not modelled.
- The bound on how many unknown or skipped names are listed, and the words of a refusal.
- Broken and wrong-kind library references.

The canonical text:

- CanonicalDecidesEquality: a number is its text, so negative zero is zero's; functions and symbols are `undefined`; a value with no own enumerable keys is an empty record.

The printer and reader:

- The words of an identifier (`pascal`, `capitalised`) and the compiler: a written type is resolved to the parts of a union, in any order.
- TypedReadsBack and UntypedReadsBack: types a person wrote by hand that the printer never writes are not covered.
- Nested files, imports, refusals, and the type-level description.

The bounded structures:

- `onEvict` is a list of what it was told, so a callback that uses the cache again is not modelled.
- Redaction is any function of a text; `peerList` and the text of values that are not strings.
- ClampScale: scales are reals; the rounding of the square root is the arbitrary first guess. The office renderer repeats the same clamp.
- PDF parsing, image encoding, the service's HTTP surface and the reading of its caps from the environment.
- The Angular client, synchronisation, search, storage, boot and scheduling.
