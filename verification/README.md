# Verified model of korder

korder reserves cluster capacity. An Order creates Tickets, each Ticket holds capacity with a
guardian pod, a business pod claims a Ticket through an admission webhook, and Quotas bound the
total. This project models the parts where those components meet and proves what they keep.

- `TicketModel`, `TicketMachine`, `TicketSafety`: the API server as a store of versioned objects, the
  ticket reconciler as a machine that makes one API call at a time, and what every interleaving of
  reconciles, pod admissions, users and faults keeps. A write is accepted only at the version it was
  read at; reads may come from a lagging cache.
- `TicketReconcile`: a whole reconcile with others acting between its calls. The pending and the ready
  handler call each other; the reconcile is shown to end, and the handler calls are counted.
- `TicketController`: the handlers as the source writes them, on a ticket object changed in place,
  each shown to do exactly what the machine does from the same point.
- `TicketOutcomes`: what one undisturbed reconcile leaves behind, case by case, in terms of the stored
  ticket and its guardian alone.
- `GuardianOwnership`: guardians and their tickets when reconciles and admissions are atomic, and what
  goes wrong when they are not.
- `TicketRequests`, `PodWebhook`: the request and selector languages, the choice of a ticket, binding,
  and the validation that follows.
- `OrderController`: ticket names, the three refresh policies, scale-up, and repeated scale-down while
  finalizers make deletion lag.
- `Resources`, `QuotaModel`, `QuotaController`, `OrderWebhook`, `TicketWebhook`: quantities, scopes,
  usage, scaled limits, projection, and both admission checks over whole runs.
- `Cron`: the cron fields, read by a validator and by a matcher, against a syntax tree.
- `Text`, `Lists`, `Conditions`: splitting, trimming, decimals, filtering, and status conditions.

`dafny verify dfyconfig.toml` checks everything.

Quantities are exact reals, times are integers, and multipliers, durations and clock readings arrive
already parsed. The replica count of an order is never negative, as its schema demands. The source
functions `handlePendingTicket`, `handleExcessTickets`, `calculateResourceUsage` and `ValidateQuota` are
each written as more than one method, split where a call or a loop begins.

## Where the code does less than it may seem to

The lemma that states each point is named with it.

- A guardian is created by one call and recorded by a later one. If the later write is refused, the
  guardian is not recorded and the pending ticket only requeues
  (`GuardianOwnership.GuardianRecordedIffWriteAccepted`, `UnrecordedGuardianStays`, `EditedMeanwhile`).
- `Default` sets the pod's node and its claimed annotation before it writes the ticket, and swallows the
  error of that write, so two pods can carry the same ticket (`PodWebhook.RecordedIffAccepted`,
  `TwoPodsOneTicket`).
- A ticket becomes Ready when its guardian is created, with the node it asks for or none; only a later
  reconcile that sees the guardian run takes over its node. A pod that claims it before is sent nowhere
  (`TicketOutcomes.WaitingTicketIsActivated`, `ReadyTicketShowsGuardiansNode`).
- A claim by name, with or without the `name:` prefix, is refused by the validator once it is recorded,
  because the validator asks for phase Ready again (`PodWebhook.ClaimAdmittedIff`).
- The finder of a selector drops pieces without exactly one '=' and searches for empty sides; the checker
  then refuses both (`TicketRequests.FinderReadsPairs`, `CheckerAcceptsIff`, `EmptyValueIsSearched`,
  `FinderDropsWhatCheckerRefuses`).
- New tickets are numbered from the ticket count, so after a deletion in the middle scale-up fails in the
  same way for ever (`OrderController.GapBlocksScaleUp`, `GapExample`); scaling down leaves such a gap
  unless the first tickets of the list bore the first names (`ScaleDownKeepsNamesIff`, `ScaleDownMakesGap`).
- A quota with an object selector counts tickets and never applies
  (`QuotaController.ObjectSelectorCountsWithoutApplying`); a namespace named twice counts twice, which
  breaks the bound (`QuotaController.AdmissionKeepsBoundIff`).
- The comment on time windows speaks of the active window; the first one is always taken. A multiplier of
  one still rounds fractional limits up (`QuotaController.UnitMultiplierRounds`).
- The Exceeded condition of a quota is never cleared (`QuotaController.ExceededIsNeverCleared`).
- Accepted orders may be promised any multiple of a quota's ticket limit
  (`OrderWebhook.TicketLimitDoesNotHold`); the limit bounds the sum of replicas only while that sum is at
  most the number of tickets counted, or out of reach of the limit (`OrderWebhook.TicketLimitHoldsIff`). A charge that overflows 64 bits is too small
  (`OrderWebhook.UnderchargedExactlyOnOverflow`).
- The ticket webhook compares each ticket with the limit alone and never counts what is stored
  (`TicketWebhook.TicketsAreNeverCounted`, `FitsAloneIsNotEnough`), which is sound only while one more
  ticket fits and no limited reserved resource is in use, or no ticket fits at all
  (`TicketWebhook.FitsAloneIsEnoughIff`). `ValidateQuota`, which does project usage, has no caller in the
  repository; its theorems say what it would guarantee.
- Day of month and weekday are both required to match, unlike in the crontab of POSIX (IEEE Std 1003.1),
  where either suffices when both are restricted (`Cron.ScheduleMeansItsFields`), and dates that never
  occur are accepted (`Cron.ThirtyFirstOfFebruary`).

## Model

| member | source | states |
|---|---|---|
| `TicketSafety.NoDoubleClaim` | internal/webhook/v1/pod_webhook.go:423-448 | In every run, whatever interleaves and however stale the copies are, at most one claim on a ticket identity is accepted, none if it was claimed before, and a claimed ticket shows its claim as long as it exists |
| `TicketSafety.RunEvolves` | internal/controller/ticket_controller.go:144-159 | Across any run, claim, claim time, activation and expiry are write-once, and phases never go back from Claimed or Expired |
| `TicketSafety.RunPhases` | internal/controller/ticket_controller.go:92-111 | Across any run, Claimed is followed only by Claimed or Expired, Expired only by Expired, and an Expired ticket has an expiry that has passed |
| `TicketSafety.PhasesStep` | internal/controller/ticket_controller.go:92-111 | Every single action moves a ticket along the phase relation; becoming Claimed takes an accepted claim, and Ready to Pending takes the reconciler's own Failed write |
| `TicketSafety.ReadyFallsBackOnlyAfterFailedCreation` | internal/controller/ticket_controller.go:141-206 | In every run, a ticket goes from Ready back to Pending only by the status write of its own reconcile, whose previous call was a failed guardian creation or met a malformed window on the way to one |
| `TicketSafety.ExpiryIsActivationPlusDuration` | internal/controller/ticket_controller.go:144-159 | The first stored expiry is the stored activation plus the duration in the spec the write was based on |
| `TicketSafety.RunOk` | internal/controller/ticket_controller.go:58-111 | Every run keeps the invariant: pending writes are legal or stale, references name the ticket's own guardian, used tickets hold the finalizer, condition types are distinct |
| `TicketSafety.EmptyOk` | internal/controller/ticket_controller.go:58-111 | The empty cluster satisfies the invariant, so the theorems hold of every run from there |
| `TicketSafety.CallStepOk` | internal/controller/ticket_controller.go:390-441 | One API call of a reconcile, with any fault and any stale read, keeps the store and the reconcile in order and only issues fresh versions |
| `TicketSafety.StatusChangesComeFrom` | internal/controller/ticket_controller.go:390-441 | A stored status changes only through an accepted claim or a status write of the ticket's own reconcile |
| `TicketSafety.PastVersionsArePlausible` | internal/controller/ticket_controller.go:58-75 | Any version a ticket ever had is among the stale copies over which the other theorems range |
| `TicketModel.GuardianRefParses` | internal/controller/ticket_controller.go:174-190 | The reference written to status.guardianPod splits back into the guardian's namespace and name |
| `TicketModel.GuardianKeyInjective` | internal/controller/ticket_controller.go:296-298 | Different tickets have differently named guardians |
| `TicketReconcile.Drive` | internal/controller/ticket_controller.go:141-221 | A reconcile ends under every schedule of interference and faults, though the pending and ready handlers call each other; the end state is in order and finished |
| `TicketReconcile.HandlerCallBound` | internal/controller/ticket_controller.go:161-206 | The two handlers are called at most twice, plus once for each creation or deletion of the guardian by somebody else |
| `TicketReconcile.MalformedBranchIsDead` | internal/controller/ticket_controller.go:189-193 | No reachable ticket has a guardian reference that fails to parse |
| `TicketReconcile.MalformedReferenceWouldLoop` | internal/controller/ticket_controller.go:161-193 | With such a reference the two handlers would hand the same state back and forth |
| `TicketReconcile.DriveIsRun` | internal/controller/ticket_controller.go:58-111 | A reconcile with interference is one of the runs the safety theorems speak of |
| `TicketController.TicketReconciler.Reconcile` | internal/controller/ticket_controller.go:58-111 | The handlers written in place leave store, schedule and result exactly as the machine does |
| `TicketController.TicketReconciler.HandleDeletion` | internal/controller/ticket_controller.go:114-138 | Refines the machine from the deletion entry, including failed calls |
| `TicketController.TicketReconciler.HandlePending` | internal/controller/ticket_controller.go:141-160 | Refines the machine from the pending entry: activation and expiry are filled in once, a malformed window becomes a Failed write |
| `TicketController.TicketReconciler.Activate` | internal/controller/ticket_controller.go:161-179 | Refines the machine from the creation of the guardian: created, failed, or already there |
| `TicketController.TicketReconciler.HandleReady` | internal/controller/ticket_controller.go:182-221 | Refines the machine from the ready entry, with its calls back into the pending handler |
| `TicketController.TicketReconciler.HandleClaimed` | internal/controller/ticket_controller.go:224-238 | Refines the machine from the claimed entry: guardian gone first, status second |
| `TicketController.TicketReconciler.HandleExpired` | internal/controller/ticket_controller.go:241-275 | Refines the machine from the expired entry, with the deadline recomputed from the current time |
| `TicketController.TicketReconciler.HandleExpiration` | internal/controller/ticket_controller.go:278-284 | Refines the machine's write of Expired |
| `TicketController.TicketReconciler.CreateGuardianPod` | internal/controller/ticket_controller.go:295-361 | Creates the guardian under the ticket's own name, reports failure and existence apart, and touches nothing else |
| `TicketController.TicketReconciler.DeleteGuardianPod` | internal/controller/ticket_controller.go:364-387 | Deletes the referenced pod, treats an absent one as deleted, and fails only if the call fails |
| `TicketController.TicketReconciler.UpdateTicketStatus` | internal/controller/ticket_controller.go:390-441 | Upserts the condition in place and writes only at the version that was read |
| `TicketOutcomes.NewTicketGetsFinalizer` | internal/controller/ticket_controller.go:82-90 | A ticket without the finalizer gets it and nothing else |
| `TicketOutcomes.WaitingTicketIsActivated` | internal/controller/ticket_controller.go:141-179 | An undisturbed reconcile of a waiting ticket stores it as Ready with its guardian's name, the node it asks for, its activation as the clock showed it and the expiry from its window, and creates that guardian on that node |
| `TicketOutcomes.FailedCreationIsReported` | internal/controller/ticket_controller.go:161-169 | If the creation call fails the ticket is stored as Pending and not ready, with its times and no guardian |
| `TicketOutcomes.MalformedWindowIsReported` | internal/controller/ticket_controller.go:149-155 | A malformed window is stored as Pending and not ready before anything is created |
| `TicketOutcomes.ReadyTicketShowsGuardiansNode` | internal/controller/ticket_controller.go:182-217 | While its guardian runs, a Ready ticket is stored with the node the guardian was put on, and nothing else of it changes |
| `TicketOutcomes.ReadyTicketWaitsForGuardian` | internal/controller/ticket_controller.go:208-221 | While the guardian does not run, nothing is saved and the ticket is looked at again |
| `TicketOutcomes.LostGuardianIsRecreated` | internal/controller/ticket_controller.go:198-206 | A missing guardian is created again and recorded |
| `TicketOutcomes.ClaimedTicketIsReleased` | internal/controller/ticket_controller.go:224-238 | A claimed ticket loses its guardian and the reference, and stays Claimed |
| `TicketOutcomes.TimedOutTicketExpires` | internal/controller/ticket_controller.go:278-284 | Past its expiry a ticket becomes Expired and is otherwise left alone, guardian included |
| `TicketOutcomes.ExpiredTicketIsCleanedUp` | internal/controller/ticket_controller.go:241-275 | An expired ticket loses its guardian and is kept, deleted at once, or deleted if the clock moved by more than its TTL between two readings |
| `TicketOutcomes.DeletedTicketGoes` | internal/controller/ticket_controller.go:114-138 | A deleted ticket loses its finalizer and is gone, its guardian before it |
| `GuardianOwnership.GuardiansStayOwned` | internal/controller/ticket_controller.go:114-179 | In every run of atomic reconciles and binds in which status writes do not fail, each stored guardian belongs to an existing ticket that holds its finalizer and names it |
| `GuardianOwnership.OwnerIsUnique` | internal/controller/ticket_controller.go:295-299 | That ticket is the only one |
| `GuardianOwnership.CalmReconcileReleases` | internal/controller/ticket_controller.go:224-248 | An undisturbed reconcile of a used ticket that returns without an error, however long its calls take, leaves no guardian exactly if the ticket names it or there was none; an owned guardian is named |
| `GuardianOwnership.ReleasedForGood` | internal/controller/ticket_controller.go:224-275 | No later step of any kind gives a released ticket another guardian |
| `GuardianOwnership.ExpiryIsEffective` | internal/controller/ticket_controller.go:92-95 | Once a live ticket's expiry has passed, the next undisturbed reconcile that returns without an error leaves it stored as Expired, whatever its phase and whoever owns the pods; it returns without one if no call fails |
| `GuardianOwnership.GuardianRecordedIffWriteAccepted` | internal/controller/ticket_controller.go:161-179 | A created guardian is recorded if and only if the later status write does not fail and the ticket kept its version |
| `GuardianOwnership.UnrecordedGuardianStays` | internal/controller/ticket_controller.go:161-220 | With the guardian there and no reference to it, an undisturbed reconcile of a pending ticket changes nothing and requeues |
| `GuardianOwnership.EditedMeanwhile` | internal/controller/ticket_controller.go:161-179 | One user edit between creation and status write leaves a pod that its ticket does not name |
| `TicketRequests.SelectorRoundTrip` | internal/webhook/v1/pod_webhook.go:190-216 | Any list of pairs, written out, passes the checker and is read back as the map it denotes |
| `TicketRequests.AcceptedSelectorIsItsPairs` | internal/webhook/v1/pod_webhook.go:268-276 | On a selector the checker accepts, the finder drops no piece and never reports an invalid format |
| `TicketRequests.FinderReadsPairs` | internal/webhook/v1/pod_webhook.go:190-216 | For every selector the finder keeps exactly the pieces with one '=', reads them as pairs with possibly empty sides, and errors exactly when it keeps none |
| `TicketRequests.CheckerAcceptsIff` | internal/webhook/v1/pod_webhook.go:268-276 | For every selector the checker accepts exactly when no piece would be dropped and no side is empty |
| `TicketRequests.FindTicketsBySelector` | internal/webhook/v1/pod_webhook.go:190-216 | Collecting pairs piece by piece finds exactly the tickets of the pod's namespace that carry all the labels |
| `TicketRequests.WrittenSelectorFindsCarriers` | internal/webhook/v1/pod_webhook.go:190-216 | A written selector finds exactly the tickets of the namespace that bear its pairs, the last one where a key is repeated |
| `TicketRequests.GroupFindsAnnotated` | internal/webhook/v1/pod_webhook.go:219-241 | A group request finds exactly the tickets of the namespace annotated with the group |
| `TicketRequests.FindTicketsByGroup` | internal/webhook/v1/pod_webhook.go:219-241 | Finds exactly the tickets of the namespace annotated with the group, in list order |
| `PodWebhook.ChoiceIsFirstMaximum` | internal/webhook/v1/pod_webhook.go:244-265 | No ticket exactly when none is Ready with a node; otherwise the earliest whose score no other such ticket beats |
| `PodWebhook.MisfitIsNeverChosen` | internal/webhook/v1/pod_webhook.go:317-327 | Among tickets on offer with the same resources, where one bears every pair of the pod's node selector or has none, one that lacks a pair or gives it another value is never chosen |
| `PodWebhook.EmptyRequirementsLose` | internal/webhook/v1/pod_webhook.go:306-314 | A ticket whose requirements state nothing is never chosen where one states some or has none |
| `PodWebhook.PodDefaulter.CheckNodeSelectorCompatibility` | internal/webhook/v1/pod_webhook.go:317-327 | The early-returning loop over the pod's pairs, in any order, decides containment |
| `PodWebhook.ChosenIsAskedFor` | internal/webhook/v1/pod_webhook.go:350-420 | A pod gets a ticket its request asks for that is on offer, and none exactly if it is a guardian, asks for nothing, or nothing it asks for is on offer |
| `PodWebhook.PodGoesToGuardiansNode` | internal/webhook/v1/pod_webhook.go:423-448 | After a reconcile that saw the guardian run, a pod for which the stored ticket is chosen is sent to the guardian's node and annotated with it |
| `PodWebhook.PodDefaulter.SelectBestTicket` | internal/webhook/v1/pod_webhook.go:244-265 | The loop returns the first maximum |
| `PodWebhook.PodDefaulter.BindPodToTicket` | internal/webhook/v1/pod_webhook.go:423-448 | The pod is changed in any case; the ticket only if the call does not fail and it is still at the version read |
| `PodWebhook.PodDefaulter.Default` | internal/webhook/v1/pod_webhook.go:350-389 | Admission never fails; a pod without a ticket is untouched, any other is bound to the chosen ticket, even when the status call fails |
| `PodWebhook.PodDefaulter.FindTicketsByRequest` | internal/webhook/v1/pod_webhook.go:71-117 | By prefix of the text: it finds exactly the tickets of the namespace that the text asks for, in list order, and errs exactly on an empty operand, a selector without a pair, or a name no claimable ticket bears |
| `TicketRequests.FoundIsAskedFor` | internal/webhook/v1/pod_webhook.go:71-117 | The lookup that admission and validation share means the same on every text |
| `PodWebhook.ClaimAdmittedIff` | internal/webhook/v1/pod_webhook.go:157-187 | A recorded claim passes validation exactly for group requests and well-formed selectors, never for requests by name |
| `PodWebhook.ClaimIsLetInIff` | internal/webhook/v1/pod_webhook.go:529-564 | Any claim is let in exactly if the request text is sound and asks for a ticket of the claimed name |
| `PodWebhook.TwoPodsOneTicket` | internal/webhook/v1/pod_webhook.go:423-448 | Two pods that chose the same ticket both carry it, while the ticket records only the first whose call went through |
| `OrderController.TicketNameInjective` | internal/controller/order_controller.go:223-230 | Order and index can be read back from a ticket name, across all orders of a namespace |
| `OrderController.VictimsExactly` | internal/controller/order_controller.go:178-218 | Ticket by ticket which ones each policy deletes: all from the desired position on; the last claimed ones up to the excess; none |
| `OrderController.LastClaimedExactly` | internal/controller/order_controller.go:198-213 | OnClaim's backward loop takes a ticket exactly if it is claimed and fewer than the excess after it are |
| `OrderController.SurvivorCount` | internal/controller/order_controller.go:178-218 | Survivors: the desired number, the larger of that and the unclaimed tickets, or all of them |
| `OrderController.ReconcileDeletesExactly` | internal/controller/order_controller.go:178-218 | Above the target, each active ticket the policy deletes is marked if it holds its finalizer and gone if not, and every other ticket is still there, as it was |
| `OrderController.OthersUntouched` | internal/controller/order_controller.go:274-286 | Tickets of other namespaces, other orders or no order are left alone |
| `OrderController.CreateFromExactly` | internal/controller/order_controller.go:156-165 | Creation goes through exactly when none of the names is in use, and then adds just those tickets |
| `OrderController.ScaleUpIsExact` | internal/controller/order_controller.go:156-165 | In any namespace, a reconcile below the target ends with exactly the desired active tickets if and only if it returns without an error; existing tickets stay as they were and contiguous names stay contiguous either way |
| `OrderController.CreatedTickets` | internal/controller/order_controller.go:223-271 | Each ticket a reconcile adds is numbered on from the ticket count, has the template as its specification, the template's labels and the two that mark the order, and no status yet |
| `OrderController.ActiveExactly` | internal/controller/order_controller.go:274-313 | The tickets that count are those of the namespace with the order's label that are not expired |
| `OrderController.ScaleUpSucceeds` | internal/controller/order_controller.go:156-165 | It returns without an error if names are contiguous and all tickets of the namespace were named by orders |
| `OrderController.GapBlocksScaleUp` | internal/controller/order_controller.go:156-165 | Below the target a reconcile fails exactly when one of the next names is in use; if it is the very next, nothing changes |
| `OrderController.GapExample` | internal/controller/order_controller.go:156-165 | Three tickets with the middle one deleted are such a case |
| `OrderController.ScaleDownIsStable` | internal/controller/order_controller.go:188-197 | Under any interleaving of repeated reconciles, whole or cut short by failing calls, with removals of terminating tickets, only the original suffix is ever marked and the first desired tickets survive |
| `OrderController.OnClaimIsStable` | internal/controller/order_controller.go:198-213 | Under any interleaving of repeated reconciles, whole or cut short, with removals of terminating tickets, only the first reconcile's victims are ever marked and all other active tickets stay exactly as they were |
| `OrderController.ScaleDownKeepsNamesIff` | internal/controller/order_controller.go:156-197 | Once all victims of policy Always are gone, names are contiguous, as scale-up needs, exactly if the first tickets of the list bore the first names |
| `OrderController.ScaleDownMakesGap` | internal/controller/order_controller.go:156-197 | Listed as 0, 2, 1, scaled down to two and up to three, an order ends with an error and no new ticket |
| `OrderController.InterruptedOrWhole` | internal/controller/order_controller.go:156-213 | A reconcile that returns without an error has done the whole work, and one cut short by a failing call only a part of it |
| `OrderController.OrderReconciler.FilterActiveTickets` | internal/controller/order_controller.go:305-313 | Keeps exactly the unexpired tickets in their order |
| `OrderController.OrderReconciler.ReconcileTickets` | internal/controller/order_controller.go:135-175 | The loops stop at the first name in use or the first failing call, and leave the namespace exactly as far as they got |
| `OrderController.OrderReconciler.HandleExcessTickets` | internal/controller/order_controller.go:178-218 | Deletes the victims of the policy from the last one on, as many as calls go through, with an error exactly if some victim is left |
| `OrderController.OrderReconciler.UpdateOrderStatus` | internal/controller/order_controller.go:316-389 | The counters count exactly the tickets of each kind and the condition list is upserted |
| `OrderController.StatusAddsUp` | internal/controller/order_controller.go:326-345 | Available and terminal replicas add up to replicas, and unavailable ones are among the available |
| `Conditions.RunMeaning` | internal/controller/order_controller.go:347-381 | Over any run of updates condition types stay distinct and each entry is what its own updates alone tell |
| `Conditions.TimeMovesOnlyOnFlip` | internal/controller/order_controller.go:358-381 | An entry's time moves only if an update flips its status |
| `Conditions.ConditionList.Set` | internal/controller/order_controller.go:358-381 | Search, then append or overwrite in place, equals the upsert |
| `QuotaController.ProjectionIsExact` | internal/controller/quota_controller.go:440-475 | One more ticket, anywhere in the list, gives exactly the projected usage where the quota applies and the old usage where it does not, missing resources read as zero |
| `QuotaController.UsageGrowsByRequest` | internal/controller/quota_controller.go:136-186 | For every scope, usage grows by the ticket's own request as often as the scope counts the ticket |
| `QuotaController.UsageCountsOrders` | internal/controller/quota_controller.go:145-163 | Of each kind of order usage counts those in scope, each once without repeats, and their sum |
| `QuotaModel.SelectorMeaning` | internal/controller/quota_controller.go:321-337 | A selector selects the labels that include all its pairs and meet all its expressions |
| `QuotaController.AppliesMeansCounted` | internal/controller/quota_controller.go:478-504 | Outside object selectors a quota applies exactly to the namespaces whose tickets it counts, once if no namespace is listed twice |
| `QuotaController.LookupAgreesWithListing` | internal/controller/quota_controller.go:321-337 | Looking a namespace up by name and listing those that match tell the same |
| `QuotaController.PermitsIff` | internal/controller/quota_controller.go:440-475 | A ticket is refused exactly when storing it would exceed a limit, or when it asks at once for more of an untracked resource than the limit |
| `QuotaController.OthersUnchanged` | internal/controller/quota_controller.go:440-475 | A ticket where the quota does not apply leaves its usage as it was |
| `QuotaController.RunStaysBounded` | internal/controller/quota_controller.go:440-475 | If every ticket is admitted by the projection, a quota without repeated namespaces that starts within its limits stays there over any run of arrivals and departures |
| `QuotaController.ProjectionIsExactIff` | internal/controller/quota_controller.go:219-245 | For a list of namespaces the projection is exact, for every cluster and ticket, if and only if no namespace is listed twice |
| `QuotaController.AdmissionKeepsBoundIff` | internal/controller/quota_controller.go:440-475 | An admitted ticket never breaks a quota over a list of namespaces if and only if none is listed twice; otherwise a first ticket breaks a limit of one |
| `QuotaController.UsageIsSparse` | internal/controller/quota_controller.go:145-183 | Usage lists only tracked resources and none at zero |
| `QuotaController.ScaledIsMonotone` | internal/controller/quota_controller.go:340-362 | Limits grow with the multiplier, resource by resource, rounding included |
| `QuotaController.ScalingUpNeverLowers` | internal/controller/quota_controller.go:340-362 | A multiplier of at least one lowers no limit |
| `QuotaController.ScaledIsClose` | internal/controller/quota_controller.go:350-354 | The scaled limit q*m is off by less than one unit below and less than m above |
| `QuotaController.LimitsFollowFirstWindow` | internal/controller/quota_controller.go:340-362 | Limits are the hard limits unless the first window has a positive multiplier; then positive limits are multiplied and rounded to whole numbers and the others stay |
| `QuotaController.UnitMultiplierRounds` | internal/controller/quota_controller.go:350-354 | A multiplier of one changes exactly the positive limits that are not whole |
| `QuotaController.VerdictGrowsWithMultiplier` | internal/controller/quota_controller.go:375-384 | Raising the multiplier never turns an acceptable usage into an exceeded one |
| `QuotaController.CalculateResourceUsage` | internal/controller/quota_controller.go:136-186 | The counts and sums of the loops are the sparse usage, and an error exactly for a malformed selector |
| `QuotaController.GetResourcesInScope` | internal/controller/quota_controller.go:189-318 | Lists one namespace after the other, repeats included |
| `QuotaController.ValidateQuota` | internal/controller/quota_controller.go:440-475 | No error exactly when every applicable quota permits the projection |
| `QuotaController.QuotaObject.CalculateCurrentLimits` | internal/controller/quota_controller.go:340-362 | Rewriting the limits key by key in any order gives the scaled limits, and the window is noted only if it took effect |
| `QuotaController.QuotaObject.Reconcile` | internal/controller/quota_controller.go:87-117 | Status shows limits and usage; the Exceeded condition is set exactly if some resource in use is above its limit there, otherwise the Enforced one, and no other condition changes; an unknown usage sets Ready to false and changes nothing else |
| `QuotaController.ExceededIsNeverCleared` | internal/controller/quota_controller.go:387-428 | After the first verdict over the limits the Exceeded condition stays true with that date whatever follows |
| `Resources.ValueRoundsUp` | internal/controller/quota_controller.go:350-354 | Value is the least whole number not below a non-negative quantity, and equal to it exactly if it is whole |
| `Resources.Project` | internal/controller/quota_controller.go:456-465 | Adding entry by entry, in any order, gives the pointwise sum of usage and requests |
| `Resources.IsQuotaExceeded` | internal/controller/quota_controller.go:375-384 | The early-returning search is the existence of a resource above its limit |
| `OrderWebhook.OrderLimitHolds` | internal/webhook/v1alpha1/order_webhook.go:356-391 | Over any run of creates, updates and deletes, the orders in scope of a cluster or namespace-list quota, repeats or not, stay within its order limit |
| `OrderWebhook.CreatedFits` | internal/webhook/v1alpha1/order_webhook.go:311-317 | An accepted order leaves room for itself in every quota that applies |
| `OrderWebhook.UsageCountsOrders` | internal/webhook/v1alpha1/order_webhook.go:417-474 | Usage counts each order in scope at least once, and exactly once if no namespace is listed twice |
| `OrderWebhook.UsageCountsTickets` | internal/webhook/v1alpha1/order_webhook.go:417-474 | Usage counts the tickets of each namespace as often as the scope names it, so each at least once and exactly once if none is named twice |
| `OrderWebhook.PermitsIff` | internal/webhook/v1alpha1/order_webhook.go:356-391 | A new order is refused by a quota without repeats exactly if its namespace is covered and one more order, its replicas on top of the tickets, or a charge by itself is too much |
| `OrderWebhook.ChangePermitsIff` | internal/webhook/v1alpha1/order_webhook.go:320-352 | An update that raises some request is refused exactly if the orders, the tickets with the change in replicas, or the change in a charge by itself are too much |
| `OrderWebhook.CreatedTicketsAskForTemplate` | internal/controller/order_controller.go:223-243 | Each ticket the order controller creates asks quotas for one ticket and exactly the template's requests |
| `OrderWebhook.CreatedWithinCharge` | internal/webhook/v1alpha1/order_webhook.go:489-516 | The created tickets together never ask for more than the order was charged for, unless a charge overflows |
| `OrderWebhook.TicketLimitHoldsIff` | internal/webhook/v1alpha1/order_webhook.go:356-435 | For cluster and namespace-list scopes and new orders of up to 2^31-1 replicas, a ticket limit bounds the sum of replicas in scope if and only if that sum is at most the number of tickets counted one by one, as often as the scope names their namespace, or too far below the limit for one order to reach it |
| `OrderWebhook.SettledKeepsPromise` | internal/webhook/v1alpha1/order_webhook.go:320-391 | While that sum is at most the number of tickets counted, no create, update or delete, under any other quotas, takes it beyond the limit |
| `OrderWebhook.TicketLimitDoesNotHold` | internal/webhook/v1alpha1/order_webhook.go:417-435 | Otherwise nothing bounds it: any number of orders of the full size are accepted one after the other while no ticket exists |
| `OrderWebhook.ChargeIsClose` | internal/webhook/v1alpha1/order_webhook.go:504-513 | Without overflow r replicas of q are charged at least r*q and less than r*(q+1) |
| `OrderWebhook.UnderchargedExactlyOnOverflow` | internal/webhook/v1alpha1/order_webhook.go:504-513 | With 32-bit replica counts the charge is too small exactly when the 64-bit product overflows |
| `OrderWebhook.OrderAsksFor` | internal/webhook/v1alpha1/order_webhook.go:489-516 | One order, as many tickets as replicas, and each template request's charge under its reserved name |
| `OrderWebhook.SkippedIff` | internal/webhook/v1alpha1/order_webhook.go:338-352 | The quota check is skipped exactly when no request of the new order grew |
| `OrderWebhook.SkippedNeverGrows` | internal/webhook/v1alpha1/order_webhook.go:320-352 | Then no resource at all is asked for more than before |
| `OrderWebhook.CalculateOrderResourceRequests` | internal/webhook/v1alpha1/order_webhook.go:489-516 | Filling the map, in any order of the template's requests, gives the order's requests |
| `OrderWebhook.CalculateQuotaUsage` | internal/webhook/v1alpha1/order_webhook.go:417-474 | Listing namespace by namespace gives the sparse counts of orders and tickets |
| `OrderWebhook.ValidateAgainstQuotas` | internal/webhook/v1alpha1/order_webhook.go:356-391 | No error exactly when every applicable quota has room for the requests |
| `OrderWebhook.ValidateUpdate` | internal/webhook/v1alpha1/order_webhook.go:320-353 | No error exactly when nothing grew or every applicable quota has room for the difference |
| `TicketWebhook.TicketAsksFor` | internal/webhook/v1alpha1/ticket_webhook.go:333-348 | One ticket, each stated request under its reserved name, and nothing else |
| `TicketWebhook.CalculateTicketResourceRequests` | internal/webhook/v1alpha1/ticket_webhook.go:333-348 | Filling the map, in any order, gives the ticket's requests |
| `TicketWebhook.ResourcesEqualIsEquality` | internal/webhook/v1alpha1/ticket_webhook.go:302-321 | Sizes plus a one-way lookup decide equality of requests and limits, with nil taken as empty |
| `TicketWebhook.FitsAloneIsWeaker` | internal/webhook/v1alpha1/ticket_webhook.go:351-372 | The webhook's own check refuses nothing that the projection would let pass |
| `TicketWebhook.FitsAloneIsEnoughIff` | internal/webhook/v1alpha1/ticket_webhook.go:333-372 | For all tickets with non-negative requests, the webhook's own check decides as the projection does exactly if the ticket limit lets none in, or if one more ticket fits and no limited reserved resource is in use |
| `TicketWebhook.FitsAloneIsNotEnough` | internal/webhook/v1alpha1/ticket_webhook.go:351-372 | Otherwise it fails: a full quota of one ticket lets another one in |
| `TicketWebhook.TicketsAreNeverCounted` | internal/webhook/v1alpha1/ticket_webhook.go:351-372 | Over any run of arrivals, a quota that limits only tickets lets all of them in if its limit is at least one, and none otherwise |
| `TicketWebhook.ValidateAgainstQuotas` | internal/webhook/v1alpha1/ticket_webhook.go:351-387 | No error exactly when each request alone fits every quota that covers the namespace |
| `Cron.ValidatorMeansInBounds` | internal/scheduler/cron.go:195-259 | The canonical text of a field is accepted exactly when the field is within bounds |
| `Cron.MatcherMeansMembership` | internal/scheduler/cron.go:111-159 | On canonical text the matcher is membership in the set the field denotes |
| `Cron.AcceptedTextMeansItsField` | internal/scheduler/cron.go:111-159 | On any accepted text, canonical or not, the matcher is membership in the meaning the text is given |
| `Cron.AcceptedFieldCanMatchUnless` | internal/scheduler/cron.go:195-259 | An accepted field matches some value of its position unless it is a step beyond the last value where counting starts at one |
| `Cron.ScheduleMeansItsFields` | internal/scheduler/cron.go:49-88 | A schedule written from five fields is accepted exactly if all are within bounds, and it is time to run exactly when the clock is in all five sets |
| `Cron.AcceptedScheduleComesUpIff` | internal/scheduler/cron.go:162-192 | An accepted schedule comes up at some real date exactly when the first day its day field names exists in some month its month field names |
| `Cron.EveryDateHasEveryWeekday` | internal/scheduler/cron.go:49-88 | Clock readings that really occur are those whose day exists in their month: every date, 29 February included, falls on every weekday in some year |
| `Cron.WeekdaysFollow` | internal/scheduler/cron.go:49-88 | Weekdays are the calendar's: each day's follows the one before, and 1 January 1970 is a Thursday |
| `Cron.ThirtyFirstOfFebruary` | internal/scheduler/cron.go:162-192 | 31 February is accepted and never comes up |
| `Text.AtoiOfDecimal` | internal/scheduler/cron.go:117-131 | Reading a formatted decimal gives the number back up to the largest 64-bit integer, and an error beyond |
| `Text.JoinThenSplit` | internal/webhook/v1/pod_webhook.go:191-200 | Joining separator-free parts and splitting gives the parts back |
| `Text.SplitThenJoin` | internal/webhook/v1/pod_webhook.go:268-276 | Splitting gives separator-free parts that join back to the text |

## Left out

- TicketController.TicketReconciler.CreateGuardianPod: the pod's labels, default resources, selectors and owner reference are not modelled, because no step reads them back; its key, owner and node are.
- OrderController.OrderReconciler.UpdateOrderStatus: a failing List or status write is not modelled, because the next reconcile computes everything again.
- OrderController.OrderReconciler.ReconcileTickets: a failing List is not modelled, because it ends the reconcile before anything is changed.
- GuardianOwnership.GuardiansStayOwned: runs with failing status writes are excluded, because ownership then fails as `GuardianOwnership.GuardianRecordedIffWriteAccepted` says.
- Manager wiring, TLS, health checks, metrics, logging, manifests, RBAC, watches, work queues and owner-reference garbage collection: no logic of korder's own.
- Stale cached reads of pods and of orders; stale reads of tickets are covered.
- Graceful pod termination: a deleted pod is gone at once.
- Writes that the API server would drop as no-ops still count as a new version.
- Creation of foreign pods under guardian names in the atomic runs; the per-call runs allow it.
- Removal of the ticket finalizer by hand.
- Sub-second truncation of stored times, message texts and observed generations.
- Deletion after the TTL: the deadline is recomputed from the current time at every reconcile, so it passes only if the clock moves by more than the TTL within one; the model has that lag as a choice and proves nothing about deletion happening.
- The paused, finalizer and deletion paths of the order controller: a branch each.
- Versions and identities of tickets in `OrderController`: its theorems are about names, phases and deletion marks in one namespace.
- Affinity, tolerations, spread constraints, scheduler and priority of pods and tickets: copied and not interpreted.
- DaemonOrder and CronOrder beyond namespace and labels: they only add to counts.
- Refused or failing status writes of quotas: the next reconcile computes everything again.
- Failing List and Get calls in the quota code: they end the call with an error, or make an applicable quota not apply.
- Syntax rules for label keys and values inside a label selector.
- time.ParseDuration, RFC 3339, ParseFloat and float64 rounding, including the conversion of a product beyond 64 bits when limits are scaled.
- Schedule.Next, NextRunTime and the choice of the active time window: placeholders in the source.
- Spec validators and defaulters of orders, tickets and quotas, and the quota webhook: single-branch checks.
- Enforcement of quota allocations: the source has none.
