# TRIDENTPOS, verified

Dafny models of the transactional protocols and the exact arithmetic of the TRIDENTPOS back end, with proofs over
all inputs, all interleavings and all reachable states. Check everything with `dafny verify dfyconfig.toml`.

| files | what they model |
|---|---|
| `Stamping`, `StampingRuns`, `StampingOutcomes`, `StampingService`, `StampingFidelity` | fiscal stamping in three phases, with crashes, concurrent callers, a capability-driven recovery table and an event outbox |
| `XmlFidelity` | the structural comparison of stamped and submitted CFDI 4.0 trees |
| `StockLedger`, `Depletion`, `DepletionRuns`, `DepletionEffect`, `DepletionExact`, `DepletionYield`, `DepletionService` | kitchen depletion, waste, quarantine and replay over an append-only ledger |
| `LockOrder` | the locks those transactions take |
| `Recipes`, `RecipeSums`, `RecipeOrder`, `RecipeCost`, `RecipeBound`, `RecipeRounding`, `RecipeErrors`, `RecipeEngine` | recipe explosion and costing |
| `JsonText`, `Canonical`, `CanonicalLaws`, `CanonicalErrors`, `CanonicalHoles`, `HashChain`, `AuditText` | RFC 8785 canonical JSON and the audit hash chain |
| `Inbox`, `InboxRuns`, `InboxService` | the consumer inbox and restore reconciliation |
| `Accounts` | payable and receivable payments and reversals |
| `Epochs`, `Leases` | folio leases |
| `Decimal`, `Money`, `TaxRules`, `Tax`, `BillSplit` | decimal strings, tax and bill splitting |
| `Results`, `Ordering` | results and sorting, shared |

How the models read the code:

- A database transaction is one atomic step. A method works on copies of the tables and commits them as a whole, so a
  throw leaves the tables as they were. In particular the FAILED_TERMINAL write that is followed by a throw when a
  lookup confirms a rejection is rolled back.
- The provider, the clock, the recipe and modifier resolvers, handlers and effect checks, and the authorization
  registry are parameters whose every answer is allowed. One organization is modelled at a time.
- Service classes hold the tables; their methods refine specification functions, and the theorems are about runs of
  those functions. Where a property the design suggests is false of the code, the code is kept and the exact condition
  is proved, with an input or a run on which the property fails: see `AtMostOnceExactly`, `PerInvoiceExactly`,
  `OutcomesFinalExactly`, `CancelledIsFinalExactly`, `LoggedStreamsVerifyExactly`, `RedeliveryIsDuplicateExactly`,
  `TakenIsPerUnitExactly` and `StampAppendedAccepted` below.
- The comment on depletion promises idempotency by order; the code recognises an order only by its movements, and the
  model follows the code. The stamping comments call a succeeded operation final; late writes carry no guard, and the
  model follows the code.
- Amounts are scale-4 integers. The decimal strings of tax and money are modelled as strings; elsewhere the integers
  they denote are used.
- The digest is an arbitrary function to 64 hex digits. Since no such function is injective, the checkpoint theorem
  says that two slices agree or exhibit a collision. Request hashes and advisory-lock hashes are taken as injective.

## Model

| member | source | states |
|---|---|---|
| `StampingRuns.AtMostOnceExactly` | packages/cloud-server/src/index.ts:5056-5341 | every run dispatches each STAMP operation to `timbrar` at most once, for all interleavings of callers, crashes and answers, if and only if the connector has neither authoritative lookup nor idempotent replay |
| `StampingRuns.AtMostOneDispatch` | packages/cloud-server/src/index.ts:5103-5293 | the safety half, from the invariant that one caller holds an operation and that it is in flight meanwhile |
| `StampingRuns.SentTwice` | packages/cloud-server/src/index.ts:5142-5293 | a concrete run in which any other connector sends one operation twice (a lookup that answers stamped without a uuid falls through to redispatch) |
| `StampingRuns.BeginIsFresh` | packages/cloud-server/src/index.ts:5047-5283 | without either capability an existing operation row never leads to a dispatch and never changes |
| `StampingRuns.DispatchesSendOneXml` | packages/cloud-server/src/index.ts:5435-5445 | all dispatches of one operation send the XML pinned by its first attempt |
| `StampingRuns.StampedIsFaithful` | packages/cloud-server/src/index.ts:5577-5650 | an invoice that is STAMPED in any run carries XML validated against the XML pinned by an operation of that invoice |
| `StampingRuns.OneEnvelopePerOperation` | packages/cloud-server/src/index.ts:6255-6339 | all outbox events of one operation carry its semantic id and the payload stored first |
| `StampingRuns.OutcomesFinalExactly` | packages/cloud-server/src/index.ts:5491-5606 | written outcomes are never overwritten in any run, if and only if the connector has neither capability (late outcome writes carry no status guard) |
| `StampingRuns.OutcomeIsFinal` | packages/cloud-server/src/index.ts:5491-5606 | the half for connectors with neither capability, step by step |
| `StampingRuns.OutcomeOverwritten` | packages/cloud-server/src/index.ts:5491-5500 | for any other connector, a run in which a late failure overwrites a terminal outcome |
| `StampingRuns.PerInvoiceExactly` | packages/cloud-server/src/index.ts:4994-5341 | when callers stamp an invoice only under keys allowed for it, every run dispatches each invoice at most once if and only if no invoice has two keys and the connector has neither capability (or nothing is allowed); the default key, the invoice id, is such a choice |
| `StampingRuns.TwoKeysTwoDispatches` | packages/cloud-server/src/index.ts:4994-5341 | for every connector, a run in which two keys send one invoice twice |
| `StampingRuns.CancelledIsFinalExactly` | packages/cloud-server/src/index.ts:5484-5650 | a CANCELLED invoice stays so in every continuation of a run if and only if no live stamping call of it, sent or not yet sent, holds XML that some document is faithful to |
| `StampingRuns.CancelledIsLeft` | packages/cloud-server/src/index.ts:5624-5650 | for every connector that accepts some document, a run that cancels an invoice and then stamps it, whatever the two uuids |
| `StampingOutcomes.StatusIsLastWrite` | packages/cloud-server/src/index.ts:5108-5683 | in every run a stamp operation exists exactly when something was written for it, and its status is that of the last write: in flight after an attempt, SUCCEEDED after a recorded certificate, FAILED_TERMINAL after a rejection, RECONCILIATION_REQUIRED after every other failing reply (failure, wrong correlation, timeout, a certificate that does not validate) |
| `StampingOutcomes.LastWriteIsLast` | packages/cloud-server/src/index.ts:5108-5683 | that write is made at some step of the run and no later step writes the operation |
| `StampingOutcomes.TerminalExactly` | packages/cloud-server/src/index.ts:5484-5606 | in every run a stamp operation is FAILED_TERMINAL if and only if the last outcome written for its key was the answer to a dispatch, and that answer was a rejection |
| `StampingOutcomes.LookupStampsExactly` | packages/cloud-server/src/index.ts:5108-5283 | an authorized lookup that confirms a validating certificate for a draft stamps the invoice with it if and only if the operation has not failed terminally |
| `StampingOutcomes.FailureIsRecoverableExactly` | packages/cloud-server/src/index.ts:5108-5683 | after any run and any failing reply, such a lookup stamps the invoice if and only if the reply was not a rejection; after a rejection it stays a draft |
| `Stamping.EveryRunKeepsInv` | packages/cloud-server/src/index.ts:4993-6250 | operation, invoice, event, caller and dispatch rows agree in every reachable state, cancellations and their retries included; a SUCCEEDED stamp has a uuid, faithful XML, an envelope and a non-draft invoice, and a CANCELLED invoice has a cancellation with its envelope |
| `Stamping.RepairIsUnreachable` | packages/cloud-server/src/index.ts:5067-5094 | the branch that repairs a draft invoice from a succeeded operation is never taken, both rows being written in one transaction |
| `Stamping.RecordIsRecorded` | packages/cloud-server/src/index.ts:5606-5674 | recording a certified stamp fails only on a uuid that another invoice has or on an incompatible subscriber; the identity and corruption checks never fire |
| `StampingRuns.UuidsAreUnique` | packages/database/migrations/20260905030000_billing_fiscal_invoicing.sql:91 | in every run each stamped or cancelled invoice has a uuid and no two invoices share one |
| `Stamping.BeginIsSound` | packages/cloud-server/src/index.ts:4997-5457 | phase 1 keeps the invariant and undoes no earlier row (pinned XML, payload, non-draft status) |
| `Stamping.FinishIsSound` | packages/cloud-server/src/index.ts:5484-5683 | phase 3 keeps the invariant and undoes no earlier row, for every reply |
| `Stamping.ReplayIsSound` | packages/cloud-server/src/index.ts:6255-6275 | replaying an event re-sends the stored envelope and changes no operation |
| `Stamping.CancelIsSound` | packages/cloud-server/src/index.ts:6195-6250 | a cancellation commit stores or repeats its operation's one envelope and keeps the invariant |
| `Stamping.RetryIsSound` | packages/cloud-server/src/index.ts:5769-5789 | retrying a succeeded cancellation of an invoice that is STAMPED again cancels it without a new event; its first envelope is still there |
| `StampingService.PrepareStamp` | packages/cloud-server/src/index.ts:5000-5457 | phase 1, statement by statement: from tables in agreement it leaves tables in agreement, undoes no row, goes on only from a draft, with the operation in flight and the call holding its pinned XML; each error exactly for its cause |
| `StampingService.ResumeOperation` | packages/cloud-server/src/index.ts:5056-5293 | an existing row keeps agreement on every branch; it is sent again if and only if it has not failed terminally, redispatch is allowed when it is in flight or awaits reconciliation, and the generated XML is any pinned one; then it is in flight with one more attempt and nothing else changes |
| `StampingService.DecideRecovery` | packages/cloud-server/src/index.ts:5108-5283 | nothing but a stop without authorization and a capability; confirms exactly on an authenticated lookup that answers stamped with a uuid; redispatches exactly when allowed (never after rejected, pending or unknown, and after not-found only with replay); every stop error exactly for its cause |
| `StampingService.PinXml` | packages/cloud-server/src/index.ts:5344-5457 | what is sent is the generated XML, the pinned one and any earlier pin; changed XML is refused exactly when an earlier pin differs |
| `StampingService.RecordStamp` | packages/cloud-server/src/index.ts:5597-5674 | succeeds exactly for a uuid no other invoice has, a compatible subscriber and a stamp operation of that invoice; then operation, invoice and one appended event agree on uuid, XML and payload |
| `StampingService.EnqueueFiscalEvent` | packages/cloud-server/src/index.ts:6277-6339 | exactly when it applies; one event is appended, carrying the first payload stored for its operation, and nothing else changes but a payload stored for the first time |
| `StampingService.CommitOutcome` | packages/cloud-server/src/index.ts:5484-5683 | phase 3 keeps agreement and undoes no row for every reply; each error exactly for its reply; a failing reply writes the status of that operation and nothing else, FAILED_TERMINAL for a rejection and RECONCILIATION_REQUIRED for any other; no error means a certified reply recorded in all three tables, and a refused event or a taken uuid changes nothing |
| `StampingService.FiscalInvoicingService.StampFiscalInvoice` | packages/cloud-server/src/index.ts:4993-5457 | first transaction on the tables: new state, result, invariant kept, nothing undone |
| `StampingService.FiscalInvoicingService.FinishFiscalInvoice` | packages/cloud-server/src/index.ts:5484-5683 | last transaction on the tables: it succeeds if and only if the reply certifies the sent XML, its uuid is free and the subscriber is compatible; then the operation is SUCCEEDED and the invoice STAMPED; a rejection leaves FAILED_TERMINAL, any other failing reply RECONCILIATION_REQUIRED |
| `StampingService.FiscalInvoicingService.ReplayFiscalEvent` | packages/cloud-server/src/index.ts:6255-6275 | event replay on the tables, exactly for a SUCCEEDED operation with a stored event |
| `StampingService.ReplayExactly` | packages/cloud-server/src/index.ts:6255-6275 | a replay goes through if and only if the subscriber is compatible and the operation is SUCCEEDED with a stored event; it re-sends that event and changes nothing else |
| `StampingService.CancelCommitsExactly` | packages/cloud-server/src/index.ts:6195-6250 | a cancellation commit goes through if and only if the subscriber is compatible; the operation is then SUCCEEDED, the invoice differs only in being CANCELLED, and one event is sent, the first one stored |
| `StampingFidelity.StampedDocumentIsTheSubmittedOne` | packages/cloud-server/src/index.ts:6380-6415 | in every run, removing the stamp from a STAMPED invoice's document gives the submitted document up to prefixes, xmlns attributes and attribute order |
| `XmlFidelity.ValidateStructure` | packages/billing/src/xml-validator.ts:237-290 | accepts exactly when the tree is a CFDI 4.0 with one TimbreFiscalDigital, inside a root Complemento, whose removal leaves the original; returns that stamp; each error exactly when its check is the first to fail |
| `XmlFidelity.AcceptedExactly` | packages/billing/src/xml-validator.ts:237-290 | acceptance in the terms of the document: name, namespace and Version of the root, one element named TimbreFiscalDigital in any case, at a position inside a Complemento of the root, and the rest the submitted document |
| `XmlFidelity.PlacedExactly` | packages/billing/src/xml-validator.ts:263-276 | the placement check holds if and only if the stamp is a child of a child of the root with the right names and namespaces |
| `XmlFidelity.NamedExactly` | packages/billing/src/xml-validator.ts:146-158 | the search finds an element if and only if it has the name and is the root or inside it at any depth |
| `XmlFidelity.CanonicalizeNode` | packages/billing/src/xml-validator.ts:166-218 | the one-pass canonicalization equals canonicalizing after removing every TFD and then, if the original had no root Complemento, every Complemento without elements |
| `XmlFidelity.CanonDecides` | packages/billing/src/xml-validator.ts:212-218 | equal canonical forms if and only if the trees are the same up to prefixes, xmlns attributes and attribute order, for any collation |
| `XmlFidelity.FindNodesByName` | packages/billing/src/xml-validator.ts:146-158 | the depth-first search lists all elements with the name, in document order |
| `XmlFidelity.MatchesOriginal` | packages/billing/src/xml-validator.ts:272-283 | comparing both canonical forms decides sameness with the original after stripping |
| `XmlFidelity.StampInsideAccepted` | packages/billing/src/xml-validator.ts:166-283 | inserting one TFD anywhere in a root Complemento is always accepted |
| `XmlFidelity.StampAppendedAccepted` | packages/billing/src/xml-validator.ts:185-207 | inserting a new Complemento around the TFD is accepted if and only if no Complemento without elements sits deeper in the original |
| `XmlFidelity.NestedComplementoRejected` | packages/billing/src/xml-validator.ts:185-207 | a concrete CFDI 4.0 with such a Complemento, honestly stamped and refused |
| `XmlFidelity.SplitTextRejected` | packages/billing/src/xml-validator.ts:174-176 | a Complemento inserted strictly inside a text node of the root is never accepted |
| `XmlFidelity.SplitTextInsideRejected` | packages/billing/src/xml-validator.ts:174-176 | nor is a TFD inserted strictly inside a text node of the Complemento |
| `DepletionRuns.DepletesAtMostOnce` | packages/cloud-server/src/index.ts:663-746 | in every run, once a step has moved stock for an order in a warehouse no later step does |
| `DepletionRuns.EveryRunKeepsInv` | packages/cloud-server/src/index.ts:322-1180 | ledger, outbox, waste and quarantine tables agree in every reachable state; the unique keys on movements never fire |
| `DepletionRuns.ApplyKeepsInv` | packages/cloud-server/src/index.ts:658-1072 | one order's transaction keeps all of that and never raises the integrity error |
| `DepletionRuns.QuarantinedExactly` | packages/cloud-server/src/index.ts:748-858 | an order is quarantined if and only if it has not been depleted and a modifier cannot be resolved before any recipe is found missing; ledger and outbox are then unchanged |
| `DepletionRuns.OutboxIsComplete` | packages/cloud-server/src/index.ts:1045-1072 | every order with movements, and every REPLAYED quarantine record, has its outbox row |
| `DepletionEffect.RedeliveryIsDuplicateExactly` | packages/cloud-server/src/index.ts:689-746 | a redelivery is recognised if and only if the order requires some ingredient in an amount other than zero, and then in every later state, whatever the recipes have become; otherwise it is applied again with a second outbox row |
| `DepletionEffect.AppliedMovesExactly` | packages/cloud-server/src/index.ts:916-1043 | an applied order writes movements if and only if it requires something |
| `DepletionEffect.NothingIsAppliedAgain` | packages/cloud-server/src/index.ts:689-746 | an order that requires nothing is applied in every state without a movement of it, with one more outbox row |
| `DepletionEffect.EmptyOrderAppliedTwice` | packages/cloud-server/src/index.ts:689-746 | an order without lines, delivered twice, is applied twice and has two outbox rows |
| `DepletionRuns.ReplayKeepsInv` | packages/cloud-server/src/index.ts:1084-1180 | a replay keeps the invariant, whatever the depletion answers |
| `DepletionRuns.WasteKeepsInv` | packages/cloud-server/src/index.ts:322-601 | a waste keeps the invariant and its movement is new |
| `DepletionExact.FreshWasteExactly` | packages/cloud-server/src/index.ts:322-601 | a waste under a new id goes through if and only if its quantity is positive and quantity and new balance fit DECIMAL(12,4); it then adds one MERMA row of minus the quantity, so the stock of its aggregate falls by the quantity and no other stock changes; each error exactly for its cause |
| `DepletionExact.RepeatedWasteChangesNothing` | packages/cloud-server/src/index.ts:345-400 | in every run a repeated waste changes nothing and finds the movement of the first |
| `DepletionExact.AppliedExactly` | packages/cloud-server/src/index.ts:658-1072 | an order is applied if and only if it has no movements yet, its modifiers resolve, all lines explode, and all totals, amounts and balances fit |
| `DepletionExact.FailureExplained` | packages/cloud-server/src/index.ts:748-1043 | an order fails only for a modified line without a recipe, for the first line that does not explode, with that line's error, or for an amount out of range |
| `DepletionExact.DuplicateExactly` | packages/cloud-server/src/index.ts:689-746 | in agreeing tables a delivery is a duplicate if and only if the order has movements in its warehouse |
| `DepletionExact.ResolvesExactly` | packages/cloud-server/src/index.ts:789-858 | an order resolves if and only if each line does, each with the impact of its own modifiers |
| `DepletionExact.ImpactCombines` | packages/cloud-server/src/index.ts:789-858 | the modifiers of a line together remove what any of them removes and add the sum of what they add |
| `DepletionExact.AppliedSendsMovements` | packages/cloud-server/src/index.ts:1045-1072 | an applied order adds one outbox row, which carries exactly the movements it wrote |
| `DepletionExact.OutboxMatchesLedger` | packages/cloud-server/src/index.ts:658-1180 | in every run each consumption in the ledger is in an outbox row of its order and warehouse, and every movement sent is in the ledger |
| `DepletionExact.ReplayExactly` | packages/cloud-server/src/index.ts:1084-1180 | a replay fails if and only if there is no such record or the depletion fails, with its error; otherwise the record is REPLAYED unless the order is quarantined again, and other records stay |
| `DepletionExact.ReplayTakes` | packages/cloud-server/src/index.ts:1084-1180 | a replay that goes through takes what the recorded order requires now, unless it had been depleted or is quarantined again, and touches no other stock |
| `DepletionEffect.AppliedTakesRequirements` | packages/cloud-server/src/index.ts:860-1043 | an applied order lowers each ingredient's stock in its warehouse by exactly what the order requires and touches no other stock |
| `DepletionEffect.AggregationConserves` | packages/inventory/src/kardex-domain.ts:79-94 | aggregation neither loses nor invents quantity |
| `DepletionYield.OrderTakes` | packages/cloud-server/src/index.ts:860-1043 | an applied order lowers each ingredient's stock by the sum over its lines of the amount the recipe engine explodes per unit, less removals and plus additions by modifiers, times the quantity divided once more by the yield |
| `DepletionYield.TakenIsPerUnitExactly` | packages/cloud-server/src/index.ts:880-897 | over dishes of one yield, every applied order takes quantity times the amounts per unit, for every book, state, order and modifiers, if and only if that yield is 1.0000 (the yield is divided out twice) |
| `DepletionYield.OneYieldTakesOneUnit` | packages/cloud-server/src/index.ts:880-897 | for every yield y, a recipe using y of one ingredient: an order for one full yield takes 1.0000 of it, although it needs y |
| `DepletionYield.DishList` | packages/cloud-server/src/index.ts:884-897 | the exploded list of a dish holds each ingredient once, with the sum over all paths of the recipe |
| `Depletion.AggregatedIsAscending` | packages/inventory/src/kardex-domain.ts:79-94 | one entry per ingredient, strictly ascending, with its exact total |
| `DepletionService.AggregateIngredientQuantities` | packages/inventory/src/kardex-domain.ts:79-94 | the map-and-sort loop, with the running totals' range check |
| `DepletionService.ResolveAll` | packages/cloud-server/src/index.ts:789-858 | the loops that resolve all modifiers before anything is written |
| `DepletionService.CollectIngredients` | packages/cloud-server/src/index.ts:860-914 | the loops over lines, exploded ingredients and additions |
| `DepletionService.InsertMovements` | packages/cloud-server/src/index.ts:924-1043 | the loop that inserts one movement per ingredient |
| `DepletionService.ApplyLocked` | packages/cloud-server/src/index.ts:658-1072 | the whole transaction body refines its specification |
| `DepletionService.InventoryService.OnKdsOrderProduced` | packages/cloud-server/src/index.ts:613-629 | delivery on the tables: new state, outcome, no integrity error; applied and duplicate exactly when they should be |
| `DepletionService.InventoryService.ReplayQuarantinedDepletion` | packages/cloud-server/src/index.ts:1084-1180 | replay on the tables; not found exactly without a record, otherwise with the outcome of the depletion |
| `DepletionService.InventoryService.RegisterWaste` | packages/cloud-server/src/index.ts:322-601 | waste on the tables: a new command goes through if and only if its quantity is positive and quantity and balance fit, and then takes the quantity from its stock with one new row; a repeated command changes nothing and finds its movement again |
| `StockLedger.NumberedWithoutGaps` | packages/cloud-server/src/index.ts:1278-1292 | the sequence numbers of an aggregate are exactly 1..n |
| `StockLedger.SequenceIncreases` | packages/cloud-server/src/index.ts:1278-1292 | within an aggregate the numbers increase, so their unique key never fires |
| `StockLedger.StockIsLastBalance` | packages/cloud-server/src/index.ts:294-311 | the SUM query equals the balance on the aggregate's last row |
| `StockLedger.AppendKeepsLedger` | packages/cloud-server/src/index.ts:983-1021 | a new row gets the next number and the prefix sum as its balance, and older rows keep theirs |
| `LockOrder.NoCircularWait` | packages/cloud-server/src/index.ts:329-337 | no reachable state of concurrent waste, delivery and replay transactions has a circular wait |
| `LockOrder.SomeoneCanGo` | packages/cloud-server/src/index.ts:329-337 | in every reachable state with a running transaction some running transaction is not blocked |
| `LockOrder.EveryPlanAscends` | packages/cloud-server/src/index.ts:924-935 | each transaction takes source-event lock, quarantine row and aggregates in one ascending order, the aggregates being those of the aggregated ingredient list |
| `LockOrder.MovementsAreLocked` | packages/cloud-server/src/index.ts:924-935 | every movement an applied order writes is under the lock of its aggregate, and the order under the lock of its source event |
| `LockOrder.OtherWritesAreLocked` | packages/cloud-server/src/index.ts:329-337 | a quarantined order holds its record, a waste its aggregate and its command id |
| `LockOrder.EveryRunKeepsInv` | packages/cloud-server/src/index.ts:617-627 | no lock is held twice |
| `Recipes.CycleErrorExactly` | packages/inventory/src/recipe-engine.ts:41-137 | over valid, resolvable recipes the explosion terminates and fails if and only if a cycle is reachable from the root, and reports a walk from the root that ends in a repeated id |
| `RecipeErrors.ExplodesExactly` | packages/inventory/src/recipe-engine.ts:41-137 | over any book the explosion succeeds if and only if no cycle is reachable and every reachable recipe exists, has a positive yield and well-formed items; every error is explained by a walk from the root to its cause |
| `RecipeErrors.ListExactly` | packages/inventory/src/recipe-engine.ts:41-66 | the exploded list has each ingredient at most once, ascending, and lists it, with the sum over its paths, if and only if a reachable recipe names it |
| `RecipeErrors.EffectiveRoundsTwice` | packages/inventory/src/recipe-engine.ts:87-136 | an effective quantity is factor times quantity rounded to the nearest, then divided by the yield and rounded to the nearest |
| `RecipeErrors.CostsExactly` | packages/inventory/src/recipe-engine.ts:143-242 | over any book and costs, costing succeeds if and only if no walk from the root leads to a fault (cycle, missing recipe, bad yield, malformed or negative line, missing cost, overflow); an error is that of such a fault |
| `RecipeErrors.CostIsBatchOverYield` | packages/inventory/src/recipe-engine.ts:151-242 | a batch costs the plain sum of its lines and a unit the nearest to batch over yield |
| `RecipeErrors.LineIsNearest` | packages/inventory/src/recipe-engine.ts:168-228 | a line costs the nearest to gross quantity times unit cost, of the ingredient or of the sub-recipe |
| `RecipeSums.ExplosionSumsPaths` | packages/inventory/src/recipe-engine.ts:87-136 | the accumulator is, per ingredient, the sum over all root-to-leaf paths, each counted once |
| `RecipeOrder.OrderDoesNotMatter` | packages/inventory/src/recipe-engine.ts:41-66 | reordering the items of any recipes changes neither success nor the resulting list |
| `RecipeOrder.KeysExact` | packages/inventory/src/recipe-engine.ts:104-110 | the result lists exactly the ingredients that reachable recipes name |
| `RecipeCost.ExplosionAndCostingAgree` | packages/inventory/src/recipe-engine.ts:168-242 | over exact arithmetic the sum of exploded gross quantity times cost is the unit cost |
| `RecipeRounding.RoundedExplosionAndCostingAgree` | packages/inventory/src/recipe-engine.ts:87-242 | with rounding, for recipes of any depth: exploded quantities times costs differ from the unit cost by no more than a slack computed along the recipe tree |
| `RecipeRounding.AmountIsNear` | packages/inventory/src/recipe-engine.ts:87-136 | each exploded amount is within its slack of the exact quantity, the slack growing by one share and two roundings per level |
| `RecipeRounding.CostIsNear` | packages/inventory/src/recipe-engine.ts:151-242 | the unit cost is within its slack of the exact one |
| `RecipeBound.OneLevelBound` | packages/inventory/src/recipe-engine.ts:87-242 | with rounding, for n items: 2Y times the difference is at most Y times the sum of costs plus n F squared plus F Y |
| `RecipeEngine.ExplodeIngredients` | packages/inventory/src/recipe-engine.ts:41-66 | the sorted list, the first error, or a total out of range |
| `RecipeEngine.Explosion.ExplodeRecursive` | packages/inventory/src/recipe-engine.ts:68-137 | the recursion on shared accumulator and stack computes the specification and restores the stack on every path |
| `RecipeEngine.Costing.CalculateCostRecursive` | packages/inventory/src/recipe-engine.ts:151-242 | the costing recursion computes its specification and restores the stack |
| `RecipeEngine.CalculateRecipeCost` | packages/inventory/src/recipe-engine.ts:143-149 | costing from the root |
| `Canonical.Canonicalize` | packages/core/src/canonicalize.ts:111-202 | the explicit-stack loop equals the recursive serializer on every object graph, and terminates |
| `Canonical.Turn` | packages/core/src/canonicalize.ts:122-199 | one turn of the loop keeps `seen` equal to the containers on the current path and the text still owed unchanged |
| `Canonical.AdvanceArray` | packages/core/src/canonicalize.ts:126-150 | the inner loop over an array |
| `Canonical.AdvanceObject` | packages/core/src/canonicalize.ts:151-190 | the inner loop over sorted keys, skipping undefined members |
| `Canonical.SerializeString` | packages/core/src/canonicalize.ts:9-19 | fast and slow path give the same text; lone surrogates are refused |
| `Canonical.BeforeExactly` | packages/core/src/canonicalize.ts:45-47 | one key sorts before another if and only if it is a proper prefix, or has the smaller unit at the first difference |
| `CanonicalErrors.SerializesExactly` | packages/core/src/canonicalize.ts:9-202 | an object graph has a text if and only if no cycle is reachable and everything reachable that is written can be: finite numbers, strings and keys without lone surrogates |
| `CanonicalErrors.PrimitiveSerializesExactly` | packages/core/src/canonicalize.ts:9-40 | the same for values outside containers; undefined has no text |
| `CanonicalHoles.UndefinedIsForgotten` | packages/core/src/canonicalize.ts:126-190 | text and error of any graph are those of the graph with null for undefined elements and without undefined members, keys and all |
| `CanonicalLaws.KeyOrderIsForgotten` | packages/core/src/canonicalize.ts:45-47 | key insertion order never matters (section 3.2.3 of RFC 8785) |
| `CanonicalLaws.CircularExactly` | packages/core/src/canonicalize.ts:77-105 | for plain values: throws if and only if a cycle is reachable, otherwise serializes |
| `CanonicalLaws.OnlyCyclesThrow` | packages/core/src/canonicalize.ts:77-105 | for all values: the circular error means a cycle, and a text means none, so shared objects serialize |
| `CanonicalLaws.CanonicalIsInjective` | packages/core/src/canonicalize.ts:111-202 | values with the same text are the same plain JSON value |
| `JsonText.WriteIsInjective` | packages/core/src/canonicalize.ts:9-40 | canonical text determines the tree |
| `JsonText.WritesArrays` | packages/core/src/canonicalize.ts:126-150 | literals and arrays unit by unit, as in sections 3 and 5 of RFC 8259 |
| `JsonText.WritesObjects` | packages/core/src/canonicalize.ts:151-190 | objects unit by unit, as in section 4 of RFC 8259 |
| `JsonText.FastPathIsSlowPath` | packages/core/src/canonicalize.ts:7-12 | strings without special units need no escaping and are well formed |
| `HashChain.VerifyAuditHashChain` | packages/core/src/hash-chain.ts:117-224 | accepts exactly the unbroken chains, otherwise points at the first broken record with the code of the first check that fails on it |
| `HashChain.CheckRecord` | packages/core/src/hash-chain.ts:136-218 | the checks on one record in order |
| `HashChain.TamperIsDetectedExactly` | packages/core/src/hash-chain.ts:73-93 | a record that verifies still verifies after its hashed fields change if and only if the two canonical payloads collide, and never with another hash; the remaining fields do not matter |
| `HashChain.PayloadDeterminesFields` | packages/core/src/hash-chain.ts:42-60 | equal canonical payloads mean equal hashed fields |
| `HashChain.LoggedStreamsVerifyExactly` | packages/database/src/audit.ts:34-140 | every stream built by the logger is bound, numbered from 1 and linked; read back it verifies from genesis if and only if every event's organization, branch, actor and station ids were spelled as their UUID columns give them back, or payloads collide |
| `HashChain.ReadBackVerifiesExactly` | packages/database/src/audit.ts:86-133 | the same for one record: hashed as passed, verified as read back |
| `HashChain.UpperCaseIdDoesNotVerify` | packages/database/migrations/20260904190000_cloud_audit_trail.sql:42-45 | a stream whose event spells its organization with an upper-case digit does not verify, short of a collision |
| `HashChain.LoggedStreamsVerify` | packages/database/src/audit.ts:34-140 | with ids that read back unchanged every logged stream verifies |
| `HashChain.CloudAuditStream.LogAuditEvent` | packages/database/src/audit.ts:35-140 | appends the row chained to the head, with the event's fields, the next number and the hash of the fields as passed; the stream stays verifiable if and only if it was and the event's ids read back unchanged (or collide) |
| `HashChain.CloudAuditStream.VerifyStreamChain` | packages/database/src/audit.ts:269-286 | valid if and only if the stored rows are an unbroken chain from genesis; for the rows the logger writes, if and only if every record hash holds |
| `HashChain.CheckpointPinsRecords` | packages/core/src/hash-chain.ts:253-275 | two slices that verify against one checkpoint agree on every hashed field at every index, or exhibit a collision of the digest |
| `HashChain.CheckpointOfChain` | packages/core/src/hash-chain.ts:229-275 | a checkpoint of a slice verifies against it if and only if the slice is an unbroken chain |
| `HashChain.VerifyCloudCheckpoint` | packages/core/src/hash-chain.ts:253-275 | decides the checkpoint match |
| `AuditText.LiteralText` | packages/core/src/hash-chain.ts:42-60 | the object literal, its members inserted in any order, serializes to the hashed text, and literals of records that differ in any hashed field to different texts |
| `AuditText.KeysAreSorted` | packages/core/src/hash-chain.ts:43-57 | whatever order its thirteen keys are inserted in, they are written in one |
| `AuditText.PayloadNames` | packages/core/src/hash-chain.ts:42-60 | the hashed text carries each of the thirteen fields under its own name, absent ones as null |
| `Inbox.RunKeepsInv` | packages/cloud-server/src/index.ts:6935-6992 | from any state restored together, in every interleaving, each effect is applied at most once and exactly when its inbox row exists |
| `InboxRuns.PendingRunIgnoresDeliveries` | packages/cloud-server/src/index.ts:6936-6947 | while a restore is pending throughout a run, the run is the same without that consumer's deliveries |
| `InboxRuns.DeliveredExactly` | packages/cloud-server/src/index.ts:6935-6992 | after any run a delivery leaves its event applied exactly once if and only if its row is already there, or none of that id is, no restore is pending, the handler succeeds and the effect is verified |
| `InboxRuns.MarkerLeavesOnlyWhenDone` | packages/cloud-server/src/index.ts:7091-7128 | a marker leaves a run only by being cleared or by the end of a reconciliation that processed its whole interval |
| `InboxRuns.MarkerGoneMeansApplied` | packages/cloud-server/src/index.ts:7089-7128 | when nobody cleared the marker and it is gone, some interval of that consumer is applied, each event exactly once |
| `InboxRuns.RerunCompletes` | packages/cloud-server/src/index.ts:7089-7128 | after any run, failed and crashed attempts included, a reconciliation whose own events go through ends with its interval applied exactly once and the marker gone, whatever else runs in between, when each event id has one envelope |
| `InboxRuns.RunKeepsSourced` | packages/cloud-server/src/index.ts:6935-6992 | if each event id has one envelope, no run gives it a second |
| `Inbox.ReconciledIntervalIsApplied` | packages/cloud-server/src/index.ts:7089-7128 | when a reconciliation ends every interval event is applied exactly once, then and later, whatever ran in between, and the marker is gone |
| `InboxService.RerunReachesSameEnd` | packages/cloud-server/src/index.ts:7089-7128 | after any failed attempt a rerun in which nothing fails succeeds and reaches the state of an undisturbed run |
| `InboxService.ReconcileExactly` | packages/cloud-server/src/index.ts:7089-7128 | an interval is reconciled if and only if each event, in the state its predecessors leave, is verified and is either stored as it is or handled |
| `InboxService.ConsumerInboxService.ProcessEventWithInbox` | packages/cloud-server/src/index.ts:6865-6993 | one delivery on the tables: new state and result, agreement kept; processed, duplicate and every refusal exactly for their causes, in the order of the checks |
| `InboxService.ConsumerInboxService.ReconcileConsumerRestore` | packages/cloud-server/src/index.ts:7021-7131 | success if and only if the checks and every event go through; then all applied once, marker cleared, count equal to the inbox growth; failure keeps the marker |
| `InboxService.ConsumerInboxService.ReplayInterval` | packages/cloud-server/src/index.ts:7089-7116 | the loop of per-event transactions |
| `Accounts.EveryRunKeepsInv` | packages/cloud-server/src/index.ts:2935-3410 | in every run: balance is total less unreversed payments, between zero and total, status matches, no payment reversed twice, no reference used twice; the receivable side likewise with PAID exactly at zero |
| `Accounts.ExceedsTotalNeverFires` | packages/finance/src/accounts-payable.ts:82-87 | the exceeds-total guard never fires |
| `Accounts.ReferenceIsSettled` | packages/cloud-server/src/index.ts:2946-3002 | a reference used in a run is settled in every later state: a command that repeats its transaction is a duplicate, any other a conflict, and neither changes anything |
| `Accounts.PaysExactly` | packages/finance/src/accounts-payable.ts:29-93 | in every state that keeps the laws, a payment under a fresh reference goes through if and only if its account is known in its branch and 0 < amount <= balance; it lowers that balance by the amount, is PAID exactly at zero, adds one transaction and touches no other account; each refusal for its cause |
| `Accounts.ReversesExactly` | packages/cloud-server/src/index.ts:3149-3410 | a reversal under a fresh reference goes through if and only if its original is an unreversed payment of that account and branch; it raises the balance by that payment, adds one transaction and touches no other account; each refusal for its cause |
| `Accounts.BalanceCanBePaid` | packages/finance/src/accounts-payable.ts:51-80 | in every run the whole balance of an account can be paid, which leaves zero and PAID |
| `Accounts.PaymentCanBeReversed` | packages/cloud-server/src/index.ts:3149-3410 | in every run an unreversed payment can be reversed, which gives its amount back to the balance |
| `Accounts.PaidIsDuplicateLater` | packages/cloud-server/src/index.ts:2946-3002 | a payment that went through is answered as a duplicate in every later state, whatever ran in between |
| `Accounts.ReversedIsDuplicateLater` | packages/cloud-server/src/index.ts:3165-3225 | so is a reversal |
| `Accounts.ReversedOnce` | packages/cloud-server/src/index.ts:3330-3344 | once a payment is reversed, no command reverses it again in any later state |
| `Accounts.FullyReversedExactly` | packages/cloud-server/src/index.ts:3330-3344 | the sum test of payables and the row test of receivables both say that a reversal exists |
| `Accounts.ReverseUndoesApply` | packages/finance/src/accounts-payable.ts:29-93 | reversing a payment restores balance and status |
| `Accounts.PayKeepsInv` | packages/cloud-server/src/index.ts:3721-3923 | settling or paying keeps the laws of every account |
| `Accounts.ReverseKeepsInv` | packages/cloud-server/src/index.ts:3925-4180 | reversing keeps the laws of every account |
| `Accounts.FinanceService.ApplyPayment` | packages/cloud-server/src/index.ts:2935-3147 | payment on the tables: under a fresh reference it goes through if and only if the account is known in its branch and 0 < amount <= balance, with the new balance, status and transaction; used references are duplicates or conflicts and change nothing |
| `Accounts.FinanceService.ReversePayment` | packages/cloud-server/src/index.ts:3149-3410 | reversal on the tables: under a fresh reference it goes through if and only if the original is an unreversed payment of that account and branch; used references are duplicates or conflicts and change nothing |
| `Leases.EveryRunKeepsInv` | packages/database/src/leases.ts:241-353 | in every run of allocate, replace and heartbeat: ranges tile 1..max, epochs are 1, 2, 3, ... in range order, only the newest lease can be open, marks stay in range and reach its end exactly on exhaustion |
| `Leases.EachFolioHasOneLease` | packages/database/src/leases.ts:286-316 | the leased folios are exactly 1..max and each belongs to one lease |
| `Leases.SupersededHolderIsFenced` | packages/database/src/leases.ts:440-515 | once another lease has been allocated, no heartbeat with the old id or epoch is accepted in any later run, and the old row never changes |
| `Leases.RunFollows` | packages/database/src/leases.ts:440-515 | marks never decrease, identities and ranges never change, rows are only appended |
| `Leases.FirstOpenIsNewest` | packages/database/src/leases.ts:255-284 | an open lease is always the newest, so replacing the first match is enough |
| `Leases.AllocatedExactly` | packages/database/src/leases.ts:186-353 | an allocation is accepted if and only if a requested size is between 10 and 5000, a lease is open only when it is a disaster recovery, and id and generation are available; the lease has the requested number of folios, or 500, right after all older ranges, with the request's id and token, the next generation and a mark just before its range; the open lease is abandoned and nothing else changes; each refusal for its cause |
| `Leases.BeatenExactly` | packages/database/src/leases.ts:393-537 | a heartbeat is accepted if and only if id, epoch and fencing token are those of the newest lease, that lease is not abandoned and the folio is between its mark and its end; then only its mark moves, with EXHAUSTED exactly at the end; each refusal for its cause |
| `Leases.SupersedeOpen` | packages/database/src/leases.ts:255-284 | the conflict check and the disaster-recovery update |
| `Leases.MaxRangeAndEpoch` | packages/database/src/leases.ts:286-316 | the loop over historical rows finds both maxima, or a malformed epoch |
| `Leases.NextSlot` | packages/database/src/leases.ts:286-316 | next range start and epoch number |
| `Leases.AllocateBlock` | packages/database/src/leases.ts:241-353 | the allocation transaction: accepted and refused exactly as `AllocatedExactly` says, with the lease of the requested size |
| `Leases.HeartbeatNewest` | packages/database/src/leases.ts:424-515 | the heartbeat transaction: accepted and refused exactly as `BeatenExactly` says |
| `Leases.CloudLeaseManager.AllocateLease` | packages/database/src/leases.ts:186-353 | allocation on the table: accepted if and only if the request may be; the granted lease has the requested number of folios, or 500, after all older ranges; an error says why and commits nothing |
| `Leases.CloudLeaseManager.HeartbeatLease` | packages/database/src/leases.ts:393-537 | heartbeat on the table: accepted if and only if it comes from the holder of the newest lease and stays within its range; an error says why and commits nothing |
| `Epochs.ParseOfFormat` | packages/core/src/folio-contracts.ts:73-100 | parsing a formatted generation gives it back |
| `Epochs.FormatOfParse` | packages/core/src/folio-contracts.ts:65-100 | a generation has one text |
| `Epochs.CompareIsZeroOnlyOnEqualTexts` | packages/core/src/folio-contracts.ts:104-108 | epochs compare equal only when their texts are equal |
| `Epochs.ComparesGenerations` | packages/core/src/folio-contracts.ts:104-108 | epochs compare as their generations do |
| `Epochs.FirstGeneration` | packages/core/src/folio-contracts.ts:65-100 | the first generation is written ep_1 |
| `Money.RoundDivIsNearest` | packages/core/src/money.ts:24-34 | division rounds to the nearest integer, ties away from zero, missing by at most half the divisor |
| `Money.NearestIsUnique` | packages/core/src/money.ts:24-34 | that specification has one solution |
| `Money.ParseFormat` | packages/core/src/money.ts:40-77 | formatting then parsing an amount in range is the identity |
| `Money.FormatParse` | packages/core/src/money.ts:40-77 | parsing then formatting gives the text back if and only if it is canonical |
| `TaxRules.LineBalances` | packages/billing/src/tax-calculator.ts:28-107 | subtotal plus tax is total exactly per line; exclusive tax is the sum of its breakdown |
| `TaxRules.InvoiceBalances` | packages/billing/src/tax-calculator.ts:109-124 | subtotal plus tax is total exactly per invoice |
| `TaxRules.LineAmountIsNearest` | packages/billing/src/tax-calculator.ts:28-83 | the amount of a line is the nearest to price times quantity; with an inclusive scheme that is the total, and the subtotal is the nearest to it over one plus the rates |
| `TaxRules.PartsAreNearest` | packages/billing/src/tax-calculator.ts:64-98 | the breakdown has one part per scheme, the nearest to the subtotal times its rate |
| `TaxRules.InclusiveExactly` | packages/billing/src/tax-calculator.ts:50-83 | an inclusive line succeeds if and only if all rates are read and no amount leaves the range, the divisor not being zero |
| `TaxRules.ExclusiveExactly` | packages/billing/src/tax-calculator.ts:83-107 | an exclusive line succeeds if and only if all rates are read and no amount leaves the range |
| `TaxRules.InvoiceIsSum` | packages/billing/src/tax-calculator.ts:109-124 | each of an invoice's totals is the plain sum of that field over its lines; it succeeds if and only if every line does and no running sum leaves the range |
| `TaxRules.InclusiveBreakdownIsClose` | packages/billing/src/tax-calculator.ts:50-83 | inclusive mode with divisor D and n schemes: 2F times the difference of breakdown and tax is at most nF plus the size of D |
| `Tax.CalculateItemTaxes` | packages/billing/src/tax-calculator.ts:28-107 | the string-level line calculation: the strings denote the nearest amount to price times quantity and the parts of it that the integer rules give, errors included |
| `Tax.CalculateInvoiceTaxes` | packages/billing/src/tax-calculator.ts:109-124 | the string-level invoice loop: the strings denote the plain sums of subtotal, tax and total over the lines, errors included |
| `Tax.SumRates` | packages/billing/src/tax-calculator.ts:53-58 | the loop that adds rates as decimal strings |
| `Tax.ArithmeticDenotes` | packages/billing/src/numerics.ts:17-46 | add, subtract, multiply and divide on decimal strings are the integer operations |
| `BillSplit.CalculateProportionalSplit` | packages/mobile-waiter/src/numerics.ts:106-234 | the split is balanced if and only if it is EQUAL, or BY_ITEM with an assignment, or the total is zero; it has one subaccount per person or per assigned index, and discount and tip are shared out whole |
| `BillSplit.EqualSplit` | packages/mobile-waiter/src/numerics.ts:122-154 | total, discount and tip are conserved for any number of people; the last share differs by less than n units |
| `BillSplit.ItemSplit` | packages/mobile-waiter/src/numerics.ts:155-214 | total, discount and tip are conserved; every share but the last pays its own gross - discount + tip, and the last does if and only if total = gross - discount + tip; the last share's discount and tip are within n units of its own proration, or off by the whole amount when the items come to zero |
| `BillSplit.ResidueIsSmall` | packages/mobile-waiter/src/numerics.ts:126-140 | the residue left by truncated shares is under n units and never has the opposite sign |
| `BillSplit.GroupsPartition` | packages/mobile-waiter/src/numerics.ts:157-181 | grouping by index loses nothing |

## Left out

- PAC transport, cryptography, the XML parser, database drivers and row-level security: foreign code.
- Provenance, correlation and stamp-attribute checks on provider results: one boolean per answer (`genuine`).
- The decision table of `cancelFiscalInvoice`: only its writes to the shared tables are steps, in any order, and a cancellation may be sent again; at-most-once is claimed for STAMP operations only.
- Operation ids: an operation is named by its idempotency key, which the table keeps unique, and its semantic event id by key and kind.
- Floating-point paths: draft invoice totals and CFDI money formatting.
- `confirmPurchaseReceipt` and other ledger writers: the ledger laws are about waste and depletion rows.
- Unit and total costs on ledger rows and alerts for negative stock. A total cost outside DECIMAL(12,4) makes a depletion or a waste throw and roll back; the model has no such failure.
- Edge SQLite repositories, HTTP routes, the outbox delivery worker, loyalty, circuit breaker, webhook deduplication and migrations.
- `toJSON` wrappers, negative zero and bigint leaves in canonicalization; a number is represented by the text `JSON.stringify` gives it.
- JSON text of a comparison tree: canonical XML forms are compared as trees, `JSON.stringify` being injective on nested arrays of strings; attribute names are sorted by any strict total collation.
- Metadata and timestamps of audit records are taken as persisted: that they read back unchanged is not modelled. Ids go through their UUID columns.
- Number precision above 2^53 for folios, sequence numbers and audit numbering.
- RerunReachesSameEnd: nothing else runs between the failure and the rerun; with everything else in between, `RerunCompletes` applies.
- ExplosionAndCostingAgree: exact arithmetic; `RoundedExplosionAndCostingAgree` ties it to the rounded engine.
- Line items of the recipe cost breakdown, due dates, labels and notes.
- Product ids: in `DepletionYield` a product goes by the id of its recipe.
- Lenient parsing of amounts by the mobile client: `BillSplit` starts from integers; CUSTOM_PERCENT has no branch in the code and yields no subaccount.
- Accounts marked OVERDUE, DEFAULTED or CANCELLED: the rules handle these statuses, but no writer of them is part of the runs.
- The checks before a restore (policy, interval, retention, tenant, compatibility) are one boolean of the snapshot.
