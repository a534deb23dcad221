# Coffee shop back end: a verified model

A Dafny model of the stateful parts of an online coffee shop's back end, with proofs about every
run of them. `dafny verify dfyconfig.toml` checks the whole project.

| part | files | form |
|---|---|---|
| What the tables share | `Shop.dfy`, `Wrappers.dfy` | data types |
| Calendar, horizons and schedules | `Calendar.dfy`, `Frequency.dfy`, `Horizons.dfy` | functions and lemmas |
| Subscription engine: lifecycle, billing, scheduler | `SubscriptionTables.dfy`, `SubscriptionSteps.dfy`, `SubscriptionInvariant.dfy`, `SubscriptionPreservation.dfy`, `SubscriptionRuns.dfy`, `Cancellation.dfy`, `AfterCancellation.dfy`, `PausedRuns.dfy`, `SchedulerRuns.dfy`, `SchedulerQueries.dfy`, `SchedulerPasses.dfy`, `SubscriptionWitnesses.dfy`, `SubscriptionOutcomes.dfy`, `ExtensionOutcomes.dfy`, `DailyRuns.dfy`; `SubscriptionStore.dfy` holds the code as a class, `SubscriptionCounts.dfy` says what it reports | transition system, invariant, class |
| Orders and payments | `OrderStatus.dfy`, `Orders.dfy`, `OrderRuns.dfy`, `OrderRefunds.dfy`, `OrderOutcomes.dfy`, `OrderStore.dfy` | transition system, class |
| Signing-key cache | `KeyCache.dfy`, `KeyLifetimes.dfy` | class and timed runs |
| Ratings | `Averages.dfy`, `Ratings.dfy`, `RatingOutcomes.dfy`, `RatingStore.dfy` | arithmetic, transition system, class |
| Catalogue: search, filters, pages, facets | `LikeSearch.dfy`, `CatalogTables.dfy`, `CatalogFilters.dfy`, `CatalogExactness.dfy`, `Sorting.dfy`, `CatalogPages.dfy`, `QueryTerms.dfy`, `Facets.dfy`, `FlavorFacets.dfy`, `CatalogOutcomes.dfy` | query syntax with its semantics, read-only methods |
| Saved payment methods | `PaymentMethods.dfy`, `PaymentMethodOutcomes.dfy`, `PaymentMethodStore.dfy` | transition system, class |

Each part that changes state is written twice on purpose. A class holds the tables as fields and
its methods change them step by step, with the loops the code has; every such method ensures that
its new state and result are those of one specification function of the old state. The
specification functions are what the lemmas about runs speak of, so what is proved of a run is
proved of the methods. What one operation answers and leaves behind is proved in the files named
`...Outcomes`, in terms of the tables alone: when it is accepted, which rows change, and to what.

## Conventions

- Money is in integer cents, averages in tenths. On whole cents the half-up rounding of an order's
  total changes nothing, so `SumLines` has no rounding in it.
- A table from which the code never deletes is a sequence, and a row's id is its position. Ratings
  and saved methods are deleted, so their rows carry their keys.
- An operation is serial and atomic. An exception leaves the database as it was
  (`src/api/core/database.py:73-81`); the payment provider's books (`ledger`) are kept outside the
  tables, and no rollback touches them. When a declined creation is rolled back its subscription
  id is used again; in the books only the declined charge can bear it.
- The provider, the database's answers and the clock are inputs. A provider is an arbitrary function
  from a fresh transaction id to settled or declined. The answer to a query whose order is not
  fixed is a parameter that a predicate (`IsDueQuery`, `IsExtensionQuery`, `IsNewestQuery`,
  `IsAnswer`, `IsGroupBy`) constrains; every legal answer is covered. `DailyRunExists` and
  `AnswerExists` show that there is one in every state.
- A subscription's `created` date is the day its first horizon is counted from.
- Dates are proleptic Gregorian without an upper end.

## Where the code and its documentation differ

Each of these is shown at a reachable state or for every input, beside the exact condition.

- `src/subscriptions/scheduler.py:3-4` promises that a re-run on the same day is a no-op. It is one
  exactly when every horizon appended that day starts after today and ends beyond the look-ahead
  window (`RerunIsNoOpIff`). `RerunCounterexample` gives a run, the truthful answers to all the
  queries of both daily runs, and two different results.
- `src/payments/billing.py:118-120` says that every payment row sharing a refunded transaction is
  marked refunded. Rows of delivered events are not: `RefundedTransactionKeepsARow` reaches a
  cancellation that asks for 3750 back and marks 2500. `CancelAccounts` is the exact account.
- `src/ratings/models/product_rating.py:75` calls the average the mean rounded to one decimal. It
  is rounded twice, which agrees for every list shorter than 10^26 (`AverageIsRoundedMean`); the
  exact condition is `AverageIsRoundedMeanIff`, and `LongListRoundsWrong` shows a list it fails for.
- `src/payments/service.py:93-133` applies provider callbacks to pending payments, but
  `charge_for_order` settles or fails a payment before storing it, so no callback ever acts
  (`CallbacksNeverAct`).
- `src/payments/service.py:148-155` asks the provider for a refund before checking that the order
  may be refunded. `FailedOrderIsPaidBackAgain` reaches an order whose charge the provider pays
  back as often as it is asked, while the tables never change; `BooksMatchIff` says exactly which
  runs keep the provider's books and the payments in agreement.
- `src/payments/method_service.py:4-5` speaks of at most one default; it is exactly one
  (`OneDefaultAlways`).
- The counts beside flavour options (`src/catalog/services/facets_service.py:184-197`) count
  occurrences, not products, and choosing an option sends its key through the parsing of
  `src/catalog/schemas/catalog.py:260-264`. The count is what choosing finds exactly when no
  coffee repeats the key and the parsing leaves it alone (`FlavorCountIsFilteredTotalIff`,
  `CountCanBeTrustedIff`); `RepeatedKeyIsCountedTwice` and `ChangedKeyMiscounts` show both failures.

## Model

| member | source | states |
|---|---|---|
| `Calendar.OrdinalOrders` | src/subscriptions/frequency.py:28-34 | comparing dates by year, month and day agrees with comparing day numbers, so a day number names one date |
| `Calendar.AddDaysOrdinal` | src/subscriptions/frequency.py:41-43 | adding a timedelta moves the day number by exactly that many days across month and leap-year ends |
| `Calendar.AddMonthsIndex` | src/subscriptions/frequency.py:28-34 | adding months reaches the month that many later, on the same day or the month's last |
| `Calendar.AddMonthsStep` | src/subscriptions/frequency.py:28-34 | successive clamped months from one anchor are 28 to 31 days apart |
| `Calendar.MonthLengths` | src/subscriptions/frequency.py:28-34 | the twelve month lengths and the leap rule, centuries included |
| `Calendar.CalendarRecurs` | src/subscriptions/frequency.py:28-43 | the calendar repeats every four hundred years, which are 146097 days |
| `Calendar.DayOne` | src/subscriptions/frequency.py:28-43 | day numbers start at 1 on 1 January of year 1 |
| `Frequency.FirstHorizonIsAnExtension` | src/subscriptions/frequency.py:37-51 | the creation horizon and the extension horizon from the same day are the same dates |
| `Frequency.MonthlyHorizon` | src/subscriptions/frequency.py:28-51 | the i-th date of a monthly horizon is i months on, on the same day or a shorter month's last, and a short month does not carry over |
| `Frequency.HorizonGaps` | src/subscriptions/frequency.py:46-51 | consecutive dates of a horizon, and the join with the date before it, are 7, 14 or 28 to 31 days apart |
| `Frequency.ExtensionAdvances` | src/subscriptions/frequency.py:46-51 | every extension moves the last date by 84 to 93 days, for each cadence and date |
| `Horizons.ScheduleGaps` | src/subscriptions/scheduler.py:217-222 | over any number of extensions no two consecutive dates leave a gap or clash at a join |
| `Horizons.ScheduleIncreases` | src/subscriptions/models.py:75-81 | dates rise strictly with position over any number of extensions |
| `Horizons.ScheduleHasNoRepeat` | src/subscriptions/models.py:174 | the unique constraint on subscription and date cannot fire |
| `Horizons.PeriodicSchedule` | src/subscriptions/frequency.py:41-51 | weekly and biweekly schedules are one exact arithmetic progression however often extended |
| `Horizons.MonthlySchedule` | src/subscriptions/frequency.py:28-51 | monthly schedules visit each calendar month after the start once, in order |
| `Horizons.AnchorDrift` | src/subscriptions/frequency.py:28-34 | the day a monthly horizon is counted from never rises and never falls below the lesser of the original day and 28 |
| `Horizons.RunsReachFixpoint` | src/subscriptions/scheduler.py:149-189 | same-day re-runs stop extending after at most floor((today + 60 - last) / 84) + 1 of them |
| `Horizons.SecondRunIsIdle` | src/subscriptions/scheduler.py:149-189 | one run is enough when the last date is less than 24 days past |
| `Horizons.RunStaysAhead` | src/subscriptions/scheduler.py:149-189 | a run leaves the schedule more than 60 days ahead if it was less than 24 days behind, and for weekly and biweekly only then |
| `Horizons.PassesStayAhead` | src/subscriptions/scheduler.py:149-189 | runs at most 84 days apart, the first less than 24 days late, leave it more than 60 days ahead every time |
| `Horizons.DailyRunsStayAhead` | src/subscriptions/scheduler.py:149-189 | in particular a job run daily from any of a new subscription's first 108 days on |
| `OrderStatuses.EdgeRaisesRank` | src/orders/status.py:12-29 | every permitted transition strictly raises a rank |
| `OrderStatuses.AtMostFourChanges` | src/orders/status.py:12-29 | a history that only follows the table changes status at most four times |
| `OrderOutcomes.StaffMoveOutcome` | src/orders/service.py:206-219 | a staff move goes through if and only if it is one of the nine listed, statuses written out; it changes that order's status and the milestone of the time, and nothing else; else the error says why |
| `OrderOutcomes.CustomerCancelOutcome` | src/orders/service.py:199-204 | a customer's cancellation goes through if and only if the order is theirs and in created, and then only its status changes |
| `OrderOutcomes.EveryOrderCanBeCompleted` | src/orders/status.py:12-29 | from created every order can be confirmed, put in progress and completed, and is then handed over |
| `OrderOutcomes.EveryPaidOrderCanBeCompleted` | src/payments/service.py:47-90 | and so can every order whose owner pays, with one completed payment |
| `OrderOutcomes.EngineMovesAlike` | src/orders/service.py:206-219 | an order move as the subscription engine sees it is the order service's |
| `SubscriptionTables.EventsOfComplete` | src/subscriptions/models.py:75-81 | a subscription's events are all of its rows, each once, in table order |
| `SubscriptionInvariant.DatesIncrease` | src/subscriptions/models.py:75-81 | in a reachable state table order is date order, and the maximum date is that of the last event |
| `SubscriptionPreservation.CreateKeepsInv` | src/subscriptions/service.py:159-218 | creation keeps the invariant on every path: no card, declined and rolled back, or paid |
| `SubscriptionPreservation.PayKeepsInv` | src/subscriptions/service.py:222-245 | a later payment keeps the invariant, settled or not |
| `SubscriptionPreservation.PauseKeepsInv` | src/subscriptions/service.py:249-260 | pausing keeps the invariant |
| `SubscriptionPreservation.ResumeKeepsInv` | src/subscriptions/service.py:262-273 | resuming keeps the invariant |
| `SubscriptionPreservation.CancelKeepsInv` | src/subscriptions/service.py:275-297 | cancelling with or without a provider keeps the invariant |
| `SubscriptionPreservation.ProcessRowsKeepsInv` | src/subscriptions/scheduler.py:58-93 | turning due events into orders keeps the invariant |
| `SubscriptionPreservation.SyncKeepsInv` | src/subscriptions/scheduler.py:129-143 | the completion sync keeps the invariant |
| `SubscriptionPreservation.ExtendRowsKeepsInv` | src/subscriptions/scheduler.py:149-235 | extending, charged or not, keeps the invariant |
| `SubscriptionPreservation.MoveOrderKeepsInv` | src/orders/status.py:43-51 | order moves by anyone else keep the invariant |
| `SubscriptionOutcomes.StrangersChangeNothing` | src/subscriptions/service.py:129-135 | to anyone but its owner a subscription is closed: paying, pausing, resuming and cancelling it leave the whole state alone |
| `SubscriptionOutcomes.OnlyTheOwnerActs` | src/subscriptions/service.py:222-297 | in a reachable state, whatever these operations change of a subscription, its row, events, payments or charges, its owner asked for, and for that one |
| `SubscriptionOutcomes.PauseOutcome` | src/subscriptions/service.py:249-260 | accepted if and only if it exists, is the caller's and is active; its pending events become paused and no other row changes |
| `SubscriptionOutcomes.ResumeOutcome` | src/subscriptions/service.py:262-273 | accepted if and only if it exists, is the caller's and is paused; its paused events become pending and no other row changes |
| `SubscriptionOutcomes.CancelOutcome` | src/subscriptions/service.py:275-297 | accepted if and only if it exists, is the caller's and is pending, active or paused; its undelivered events are cancelled and no other event changes |
| `SubscriptionOutcomes.CancelMarks` | src/payments/billing.py:113-139 | exactly the completed payments of its undelivered events are marked refunded, and none without a provider |
| `SubscriptionOutcomes.CancelRefunds` | src/payments/billing.py:142-157 | the provider is asked once for exactly the transactions behind those payments |
| `SubscriptionOutcomes.PayOutcome` | src/subscriptions/service.py:222-247 | a payment goes through if and only if the owner of a pending subscription uses a saved card and the provider settles; it is then active with one completed row per event; a refusal leaves at most a declined charge at the provider |
| `SubscriptionOutcomes.PayRefusals` | src/subscriptions/service.py:222-237 | each refusal of a payment with the condition it stands for |
| `SubscriptionOutcomes.CreateUnpaidOutcome` | src/subscriptions/service.py:159-208 | without a card: accepted if and only if the product is active; a pending subscription with 12, 6 or 3 open events at the price and name of the day, the cadence apart, and no charge |
| `SubscriptionOutcomes.CreatePaidOutcome` | src/subscriptions/service.py:210-218 | with a card: made active if and only if the provider settles one charge of that many times the price, with one completed row per event; else nothing is made |
| `SubscriptionOutcomes.CreateRefusals` | src/subscriptions/service.py:159-165 | each refusal of a creation with the condition it stands for |
| `SubscriptionOutcomes.DuePassOutcome` | src/subscriptions/scheduler.py:58-123 | in a reachable state exactly the pending events of active subscriptions dated up to today get a new order: one unit at the event's price, to the subscriber's address; every other event stays |
| `SubscriptionOutcomes.SyncOutcome` | src/subscriptions/scheduler.py:129-143 | an event is completed by the sync if and only if its order is completed; nothing else changes |
| `ExtensionOutcomes.ExtensionOutcome` | src/subscriptions/scheduler.py:149-235 | in a reachable state a further horizon goes to exactly the active subscriptions whose last date is at most 60 days ahead and whose last event's product is in the catalogue and active |
| `ExtensionOutcomes.AppendedEvents` | src/subscriptions/scheduler.py:192-235 | every appended event is open, repeats the product its subscription had last, is sold today at today's name and price, and is billed by one charge and one row, or not at all without a provider |
| `DailyRuns.DailyRunOutcome` | src/subscriptions/scheduler.py:241-259 | one daily run, event by event: ordered if it has come up, completed if delivered, else untouched; what is appended is sold today and billed; earlier orders and money stay |
| `SubscriptionCounts.RefundsCounted` | src/payments/billing.py:142-157 | the number of refunds reported is the number of payment rows that changed |
| `SubscriptionCounts.SyncsCounted` | src/subscriptions/scheduler.py:129-143 | the number of completions reported is the number of events that changed |
| `SubscriptionCounts.ExtensionsCounted` | src/subscriptions/scheduler.py:149-189 | the number of extensions reported is the number of queried subscriptions that have more dates afterwards |
| `SubscriptionRuns.RunKeepsInv` | src/subscriptions/service.py:109-308 | statuses, orders, money and schedules fit together after any interleaving of the engine's operations |
| `SubscriptionRuns.ReachableEvents` | src/subscriptions/service.py:222-308 | in any reachable state: event statuses match the subscription's, pending and paused events have no order, ready and completed ones their own order of the event's price, completed ones an order that was completed, dates do not repeat |
| `SubscriptionRuns.ChargesAreRecorded` | src/payments/billing.py:33-110 | in any reachable state the rows of each provider transaction sum to exactly the amount charged, a settled charge has rows, a rolled-back one none, and none is refunded twice |
| `SubscriptionRuns.NothingIsChargedTwice` | src/payments/billing.py:33-110 | each event has at most one payment row ever and each subscription at most one settled upfront charge |
| `SubscriptionRuns.RunningIsPaid` | src/subscriptions/service.py:167-170 | in any reachable state an active or paused subscription has had its upfront charge settled |
| `SubscriptionRuns.ResumeUndoesPause` | src/subscriptions/service.py:249-273 | pause then resume restores the whole state exactly |
| `PausedRuns.ResumeUndoesPauseOver` | src/subscriptions/service.py:249-273 | with any run in between, resuming succeeds and gives the subscription and every event back as it was, except deliveries completed meanwhile, with no event added |
| `SubscriptionRuns.RunEvolves` | src/subscriptions/service.py:109-308 | over any run an event keeps its order, a payment row changes only from completed to refunded, charges only gain refunds, completion and cancellation are final |
| `SubscriptionRuns.RefundedOnce` | src/payments/billing.py:142-157 | a refunded transaction is never refunded again, however the run goes on |
| `Cancellation.RowsMatchCharges` | src/payments/billing.py:60-74 | rows and charges agree over any set of settled transactions |
| `AfterCancellation.OnlyDeliveredStaysPaid` | src/payments/billing.py:113-139 | after a cancellation with a provider, and in every state any run reaches from there, a completed payment of the subscription sits only on a completed event |
| `Cancellation.RowsOfRefundedTxn` | src/payments/billing.py:118-139 | rows of a refunded transaction belong to the cancelled subscription and are refunded unless delivered |
| `Cancellation.RefundsFirstAndOnly` | src/payments/billing.py:142-157 | exactly the transactions behind undelivered payments are refunded, each for the first time, and no other changes |
| `Cancellation.CancelAccounts` | src/payments/billing.py:113-157 | what the provider pays back is the rows marked refunded plus the rows of delivered events; equal to the marked rows if and only if no delivered event shares those transactions |
| `Cancellation.RefundedRowsAreCovered` | src/payments/billing.py:113-157 | in any reachable state all refunded rows lie within the refunds the provider made |
| `SubscriptionWitnesses.RefundedTransactionKeepsARow` | src/payments/billing.py:118-120 | a reachable cancellation that refunds a transaction one of whose rows stays completed |
| `SchedulerRuns.ProcessedRow` | src/subscriptions/scheduler.py:78-123 | the i-th due event gets the i-th new order, with its price, single line and address |
| `SchedulerRuns.LaterQuery` | src/subscriptions/scheduler.py:61-76 | a query after an earlier run returns exactly what was due less what was processed |
| `SchedulerRuns.CatchUpEqualsOneRun` | src/subscriptions/scheduler.py:58-93 | processing at one day and then a later one equals one run at the later day, up to order ids |
| `SchedulerRuns.ExtensionFollowsSchedule` | src/subscriptions/scheduler.py:149-235 | one extension pass moves each active subscription's last date exactly as the one-subscription schedule says |
| `SchedulerRuns.RerunIsNoOpIff` | src/subscriptions/scheduler.py:241-259 | a second daily pass the same day changes nothing if and only if one pass suffices for every subscription it extends |
| `SchedulerRuns.UpToDateSuffices` | src/subscriptions/scheduler.py:241-259 | one pass suffices when every active subscription is scheduled up to today |
| `SchedulerRuns.LaggingSubscriptionBreaksIt` | src/subscriptions/scheduler.py:241-259 | one pass does not suffice once an extendable subscription is 31 days behind |
| `SchedulerQueries.DueQueryExists` | src/subscriptions/scheduler.py:61-76 | in every state and on every day the due query has an answer in date order |
| `SchedulerQueries.ExtensionQueryExists` | src/subscriptions/scheduler.py:163-182 | so has the extension query |
| `SubscriptionWitnesses.RerunCounterexample` | src/subscriptions/scheduler.py:3-4 | a run, truthful query answers for two daily runs of one day, and a second run that changes the state |
| `SchedulerPasses.PassesFollowSchedule` | src/subscriptions/scheduler.py:149-235 | a subscription kept active follows the one-subscription schedule pass by pass, on whatever days, whatever other operations happen in between |
| `SchedulerPasses.AlwaysAhead` | src/subscriptions/scheduler.py:149-235 | from any reachable state, passes at most 84 days apart, the first less than 24 days late, leave it scheduled more than 60 days ahead every time |
| `SchedulerPasses.NewSubscriptionStaysAhead` | src/subscriptions/scheduler.py:149-235 | in particular a new subscription under a daily job that first meets it within 107 days |
| `SubscriptionStore.Store.ChargeSubscriptionUpfront` | src/payments/billing.py:33-75 | one charge for the sum of the events, a row per event only if it settles |
| `SubscriptionStore.Store.ChargeEventOffSession` | src/payments/billing.py:78-110 | one charge and one row for one event, failed or completed |
| `SubscriptionStore.Store.RefundUndeliveredPayments` | src/payments/billing.py:113-139 | selects and refunds the completed payments of undelivered events, and returns how many |
| `SubscriptionStore.Store.RefundPayments` | src/payments/billing.py:142-157 | one provider refund per distinct transaction, every selected row marked |
| `SubscriptionStore.Store.BulkEventStatus` | src/subscriptions/service.py:305-308 | rewrites exactly the subscription's events in the named statuses |
| `SubscriptionStore.Store.CreateSubscription` | src/subscriptions/service.py:159-218 | new tables and result of creation, error by error, with the ledger kept on rollback |
| `SubscriptionStore.Store.PaySubscription` | src/subscriptions/service.py:222-245 | new tables and result of a later payment |
| `SubscriptionStore.Store.PauseSubscription` | src/subscriptions/service.py:249-260 | new tables and result of a pause |
| `SubscriptionStore.Store.ResumeSubscription` | src/subscriptions/service.py:262-273 | new tables and result of a resume |
| `SubscriptionStore.Store.CancelSubscription` | src/subscriptions/service.py:275-297 | refunds first, then statuses; new tables, ledger and result |
| `SubscriptionStore.Store.ProcessDueEvents` | src/subscriptions/scheduler.py:58-123 | new orders and event statuses of the due pass, skipping events without address or snapshot |
| `SubscriptionStore.Store.SyncCompletedEvents` | src/subscriptions/scheduler.py:129-143 | event statuses after the sync, and how many changed |
| `SubscriptionStore.Store.ExtendSubscription` | src/subscriptions/scheduler.py:192-235 | events, rows and charges of one extension, or none when the product is gone |
| `SubscriptionStore.Store.ExtendHorizons` | src/subscriptions/scheduler.py:149-189 | the extension pass over the queried rows |
| `SubscriptionStore.Store.RunDaily` | src/subscriptions/scheduler.py:241-259 | the three passes in order, and the three counts of the summary |
| `Orders.SellableItems` | src/orders/service.py:234-244 | the item check passes only when every item is an active product |
| `OrderRuns.CreateOutcome` | src/orders/service.py:128-176 | an order is accepted if and only if it has items, all can be sold and it can be handed over; it snapshots the catalogue line by line and costs their sum, and a refusal changes nothing |
| `OrderRuns.FreeCodeIsFree` | src/orders/service.py:254-259 | an allocated pickup code is unused, and allocation fails only when all ten draws are taken |
| `OrderRuns.RunKeepsInv` | src/orders/service.py:128-272 | totals, stamps, payments and ledger fit together after any run of customer, staff, scheduler, charges, callbacks and refunds |
| `OrderRuns.OrdersAndPaymentsAgree` | src/payments/service.py:47-159 | in any reachable state a payment carries its order's total, a paid order has left created, a refunded payment has a refunded order, at most one per order |
| `OrderRuns.EveryWriteIsAnEdge` | src/payments/service.py:124-125 | every writer, the unchecked callback included, keeps an order's status or follows an edge and keeps its terms |
| `OrderRuns.OnlyTheOwnerCancels` | src/orders/status.py:3-4 | an order becomes cancelled only by its owner and only from created |
| `OrderRuns.StatusHistoryIsHistory` | src/orders/status.py:12-29 | the status history of an order over any run follows the table |
| `OrderRuns.StatusChangesAtMostFourTimes` | src/orders/status.py:12-29 | over any run an order changes status at most four times |
| `OrderRuns.StampedIffCompleted` | src/orders/service.py:261-272 | the handover stamp is set if and only if the order has at some point been completed |
| `OrderRuns.ShippedIffInProgress` | src/orders/service.py:261-267 | a delivery carries a shipping stamp if and only if the order has at some point been in progress |
| `OrderRuns.OrdersKeepTheirTerms` | src/orders/service.py:133-152 | total, snapshot lines, destination and handover stamp once written never change, whatever prices do |
| `OrderRuns.FirstReportWins` | src/payments/service.py:93-133 | in any state, pending payments included, the first accepted report of a transaction is the last to have an effect |
| `OrderRuns.CallbacksNeverAct` | src/payments/service.py:77-90 | from empty tables no callback ever changes anything |
| `OrderRuns.RefundOutcome` | src/payments/service.py:136-159 | an accepted refund goes through if and only if the order is confirmed, in progress or completed; otherwise only the provider has refunded |
| `OrderOutcomes.ChargeOutcome` | src/payments/service.py:47-90 | a charge is attempted if and only if the order is the caller's and in created; the attempt is recorded at the order's total, and the order confirmed if and only if the provider settles |
| `OrderOutcomes.CallbackIgnored` | src/payments/service.py:93-116 | a callback naming no payment is not found; one naming no pending payment changes nothing |
| `OrderOutcomes.CallbackOutcome` | src/payments/service.py:118-133 | for a pending payment success completes it and confirms an order still in created, failure fails it alone, and anything else is refused |
| `OrderOutcomes.RefundAsked` | src/payments/service.py:136-152 | the provider is asked for a refund only for a completed payment, and what it declines changes nothing |
| `OrderOutcomes.RefusedItems` | src/orders/service.py:234-244 | an order is refused for want of items, or for the first item of the request that is missing or inactive |
| `OrderOutcomes.ItemsCost` | src/orders/service.py:131-150 | one item costs its price of the day times its quantity, and two lists of items the sum of what each costs |
| `OrderOutcomes.PickupOutcome` | src/orders/service.py:152-158 | a pickup order waits at the chosen point for a day under the first free code of ten draws; each refusal with its condition |
| `OrderOutcomes.DeliveryOutcome` | src/orders/service.py:159-169 | a delivery order carries the address given, with nothing shipped or delivered |
| `OrderRefunds.RefundsAreCounted` | src/payments/service.py:136-159 | over any run the provider has paid a charge back once per request that our side then refused, plus once if its payment is refunded, and never both |
| `OrderRefunds.BooksMatchIff` | src/payments/service.py:136-159 | the provider's books agree with the payments if and only if every accepted request met an order that may be refunded |
| `OrderRefunds.PaidBackOnceIff` | src/payments/service.py:148-155 | a charge is paid back at most once if and only if at most one request for it was refused after the fact |
| `OrderRefunds.FailedOrderIsPaidBackAgain` | src/payments/service.py:148-155 | a reachable order whose every refund request our side refuses and the provider carries out |
| `OrderStore.Store.LoadActiveProducts` | src/orders/service.py:234-244 | reports the first missing or inactive product in request order |
| `OrderStore.Store.AllocatePickupCode` | src/orders/service.py:254-259 | the first free code of at most ten draws |
| `OrderStore.Store.CreateOrder` | src/orders/service.py:128-176 | the new order with accumulated total and snapshot lines, or the error |
| `OrderStore.Store.CancelOrder` | src/orders/service.py:199-204 | the customer's cancellation, its checks in order |
| `OrderStore.Store.UpdateOrderStatus` | src/orders/service.py:206-217 | the staff move, its checks in order, and the stamp |
| `OrderStore.Store.StampMilestone` | src/orders/service.py:261-272 | sets the milestone of the target status once |
| `OrderStore.Store.ChargeOrder` | src/payments/service.py:47-90 | payment row, order status and charge of one attempt |
| `OrderStore.Store.ApplyCallback` | src/payments/service.py:93-133 | the effect of a provider callback |
| `OrderStore.Store.Refund` | src/payments/service.py:136-159 | the effect of a refund, provider first |
| `KeyCache.Holder.FetchIntoCache` | src/auth/jwks.py:58-78 | a success replaces the key set and its deadline, a failure changes nothing and is an error only when nothing is cached |
| `KeyCache.Holder.Resolve` | src/auth/jwks.py:81-99 | new cache and verdict of resolving one key id |
| `KeyCache.KeyMapEntry` | src/auth/jwks.py:76 | an id stands for its last published entry, entries without an id for none |
| `KeyCache.CacheIsLastFetched` | src/auth/jwks.py:58-99 | after any calls the cache is exactly the key set of the last request that succeeded |
| `KeyCache.AcceptsOnlyLastFetched` | src/auth/jwks.py:81-99 | an accepted key is that set's key for the id, and an id the set lacks is refused |
| `KeyCache.OutageIsSurvived` | src/auth/jwks.py:69-72 | through an outage of any number of calls the cached keys stay and exactly the known ids resolve |
| `KeyCache.ExpiredKeysAreForgotten` | src/auth/jwks.py:85-86 | when the request succeeds, verdict and new cache do not depend on what an expired cache held |
| `KeyCache.RefetchesAreSpaced` | src/auth/jwks.py:88-95 | recorded refetches are at least 60 seconds apart |
| `KeyCache.RefetchesAreRare` | src/auth/jwks.py:28-30 | any window of a given length holds at most floor(length / 60) + 1 refetches, whatever tokens arrive |
| `KeyCache.RotationIsSeen` | src/auth/jwks.py:88-95 | a key id published and kept published resolves on every call from 60 seconds later on, if requests succeed |
| `KeyLifetimes.AcceptedKeyIsFresh` | src/auth/jwks.py:51-99 | an accepted key is listed by the last answer that came in; that answer is within its own max-age (300 seconds if it gave none), or this call asked for it, or this call asked again and got none |
| `KeyLifetimes.AsksIffRunOut` | src/auth/jwks.py:77-86 | for an id the last answer lists a call makes a request if and only if that answer's max-age has passed; until then it resolves to the key listed |
| `KeyLifetimes.AsksUntilAnswered` | src/auth/jwks.py:35-40 | as long as nothing has been answered every call makes a request |
| `KeyLifetimes.UnavailableIff` | src/auth/jwks.py:69-74 | keys are reported unavailable if and only if the call's last request failed and nothing usable is cached |
| `KeyLifetimes.UnknownOnlyAfterAsking` | src/auth/jwks.py:88-98 | an id is turned away as unknown only if this call refetched or a refetch was recorded less than 60 seconds ago |
| `Averages.RoundingTwice` | src/ratings/models/product_rating.py:74-76 | rounding to a finer unit first changes the rounded value exactly on a wrong half |
| `Averages.AverageIsRoundedMeanIff` | src/ratings/models/product_rating.py:74-76 | the average is the mean rounded half to even once if and only if the division does not land on a wrong half |
| `Averages.AverageIsRoundedMean` | src/ratings/models/product_rating.py:74-76 | it always is for lists shorter than 10^26 |
| `Averages.LongListRoundsWrong` | src/ratings/models/product_rating.py:74-76 | a list of 10^26 + 3 scores with a mean under 1.35 averages to 1.4 |
| `Averages.AverageIsNearMean` | src/ratings/models/product_rating.py:74-76 | the average of any list is within 0.05 and half a unit of the division's last digit of the mean; of a list shorter than 10^26, within 0.05 |
| `Averages.AverageInRange` | src/ratings/models/product_rating.py:48 | an average lies between 1.0 and 5.0, so the check constraint holds |
| `Averages.RaisingAScore` | src/ratings/models/product_rating.py:74-76 | raising one score never lowers the average |
| `Averages.AverageDependsOnDistribution` | src/ratings/models/product_rating.py:66-76 | lists with one distribution have one average |
| `Averages.DistributionTotals` | src/ratings/models/product_rating.py:66-71 | a distribution recovers how many scores there were and their sum |
| `Averages.CountIsMultiplicity` | src/ratings/models/product_rating.py:66-71 | each star's count is its multiplicity among the scores |
| `Averages.BuildDistribution` | src/ratings/models/product_rating.py:66-71 | the counting loop yields each star's count |
| `Ratings.RunKeepsInv` | src/ratings/service.py:45-203 | one rating per user and product, current aggregates and purchased products survive any run |
| `Ratings.AggregatesAreRecomputations` | src/ratings/service.py:45-75 | after any run a product has an aggregate if and only if it has ratings, and it equals recomputation from the rows |
| `Ratings.RatersBought` | src/ratings/service.py:81-95 | after any run every rating's author holds an order of the product that is completed or refunded |
| `RatingOutcomes.RatingRefusals` | src/ratings/service.py:170-181 | a rating is accepted if and only if the value is 1 to 5, the product exists and the user has a completed order of it; each refusal with its condition |
| `RatingOutcomes.RatingRecorded` | src/ratings/service.py:182-187 | the user's one row for the product then holds exactly the value given, and every other row is as it was |
| `RatingOutcomes.RatingShown` | src/ratings/service.py:45-75 | the product's scores are the old ones with the user's replaced by the value, or the value added; aggregate and summary are computed from them |
| `RatingOutcomes.DeletionOutcome` | src/ratings/service.py:191-203 | a deletion succeeds if and only if the user has rated the product; it removes that row alone and recomputes what the product shows |
| `Ratings.DeleteUndoesFirstRating` | src/ratings/service.py:170-203 | deleting a first rating restores rows and aggregates exactly |
| `Ratings.LastRatingWins` | src/ratings/service.py:170-188 | a second rating leaves the state the second alone would have left |
| `Ratings.OtherProductsUntouched` | src/ratings/service.py:170-203 | a write to one product leaves every other product's scores and aggregate |
| `Ratings.RaisingARating` | src/ratings/service.py:170-188 | a user who raises a score never lowers the product's average |
| `Ratings.RowOrderIsIrrelevant` | src/ratings/service.py:49-51 | the aggregate does not depend on the order the rows are read in |
| `Ratings.CanRateFlagIsHonest` | src/ratings/service.py:98-115 | the catalogue's can-rate flag is set exactly when a rating would pass the purchase check |
| `RatingStore.Store.Recalculate` | src/ratings/service.py:45-75 | rebuilds or removes one product's aggregate and touches nothing else |
| `RatingStore.Store.CanUserRate` | src/ratings/service.py:81-95 | whether a completed order of the user holds the product |
| `RatingStore.Store.SetRating` | src/ratings/service.py:170-188 | value, product and purchase checks in that order, the upsert, the aggregate and the summary |
| `RatingStore.Store.DeleteRating` | src/ratings/service.py:191-203 | the removal, the aggregate and the summary, or not found |
| `LikeSearch.ChainIsOnePass` | src/catalog/repositories/product_repository.py:59-61 | the three chained replacements equal one escape per special character |
| `LikeSearch.EscapedPrefix` | src/catalog/repositories/product_repository.py:59-61 | an escaped term followed by a percent sign matches exactly the strings that start with the term |
| `LikeSearch.FoldEscape` | src/catalog/repositories/product_repository.py:225-228 | case folding and escaping commute |
| `LikeSearch.SearchMatchesLiterally` | src/catalog/repositories/product_repository.py:224-228 | the pattern matches a name if and only if the term occurs in it literally, up to case |
| `LikeSearch.PatternsDiffer` | src/catalog/repositories/product_repository.py:59-61 | different terms have different patterns |
| `CatalogTables.JoinOnKey` | src/catalog/repositories/product_repository.py:99 | a join on a primary key neither repeats nor loses a row that matches |
| `CatalogTables.EnvsOnKeys` | src/catalog/repositories/product_repository.py:94-175 | any series of such joins yields one row or none per product |
| `CatalogFilters.ApplyCoffeeFilters` | src/catalog/repositories/product_repository.py:94-130 | the coffee join and conditions, only when a coffee facet is set |
| `CatalogFilters.ApplyTypeFilters` | src/catalog/repositories/product_repository.py:132-175 | the scoped type's join and conditions, with material routed to its table |
| `CatalogFilters.ApplyFilters` | src/catalog/repositories/product_repository.py:68-92 | the whole statement |
| `CatalogExactness.SelectedIffMatches` | src/catalog/repositories/product_repository.py:68-175 | a product is selected if and only if it is active and has every facet that is set, NULL failing each comparison |
| `CatalogExactness.QueryReturnsMatches` | src/catalog/repositories/product_repository.py:68-175 | the rows of the conditionally joined query are the matching products in table order, each once |
| `CatalogExactness.ListingIsExact` | src/catalog/services/product_service.py:128-141 | membership and uniqueness of the whole listing for every accepted filter set |
| `CatalogExactness.QueryIsWellJoined` | src/catalog/repositories/product_repository.py:94-175 | no condition reads a table that was not joined |
| `CatalogExactness.AcceptedIffNothingDropped` | src/catalog/services/product_service.py:156-168 | the service accepts a filter set if and only if the query built from it drops no facet that is set |
| `CatalogExactness.InvertedRangesFindNothing` | src/catalog/schemas/catalog.py:267-269 | a filter set refused for an inverted range would have found nothing |
| `CatalogPages.OuterJoinKeepsRows` | src/catalog/repositories/product_repository.py:188-197 | the rating join keeps one row per product, in place, with its aggregate if it has one |
| `Sorting.SortedIsUnique` | src/catalog/repositories/product_repository.py:51-56 | with the id as last key there is only one sorted answer |
| `CatalogPages.PagesCoverTheListing` | src/catalog/repositories/product_repository.py:181-210 | pages read one by one, each by its own query, show each selected product once, in order, and total is their number |
| `CatalogPages.ListingShowsMatches` | src/catalog/services/product_service.py:128-141 | what the pages of a listing show together is exactly the matching products |
| `CatalogPages.ListProducts` | src/catalog/services/product_service.py:128-168 | errors exactly on an unknown category or a misplaced facet; else the slice of the sorted matches and their number |
| `CatalogPages.SearchFindsLiterally` | src/catalog/repositories/product_repository.py:224-231 | the pages of a search show exactly the active products whose name holds the term literally, up to case, each once, by name, and as many as the total |
| `CatalogPages.SearchProducts` | src/catalog/repositories/product_repository.py:224-231 | the slice and total of a search, every item literally matching |
| `CatalogPages.AnswerExists` | src/catalog/repositories/product_repository.py:51-56 | every statement has an answer in every order |
| `CatalogOutcomes.ScopeIsTheCategorysType` | src/catalog/services/product_service.py:143-154 | a category is resolved to its own type, and refused if and only if it does not exist |
| `CatalogOutcomes.ListingAcceptedIff` | src/catalog/services/product_service.py:143-168 | a listing is answered if and only if its category exists and every facet of one type is used in a category of that type, facets written out |
| `CatalogOutcomes.RangesRefusedIff` | src/catalog/schemas/catalog.py:267-269 | the ranges are refused if and only if the bounds of one of the six cross |
| `CatalogOutcomes.AnswersAreInOrder` | src/catalog/repositories/product_repository.py:51-56 | what newest and the price orders mean from end to end, ties by id, and that the first product is an extreme of all selected |
| `CatalogOutcomes.AcidityOptionFinds` | src/catalog/repositories/product_repository.py:28-32 | choosing an acidity option finds the category's active coffees of acidity 1 or 2, 3, and 4 or 5 |
| `CatalogOutcomes.RatingFilterFinds` | src/catalog/repositories/product_repository.py:79-87 | the rating filter finds the active products whose stored average is at least the stars asked for |
| `QueryTerms.SplitCsvIsClean` | src/catalog/schemas/catalog.py:260-264 | whatever was sent, the terms are stripped, lower case, not empty and not repeated |
| `QueryTerms.SplitCsvFixes` | src/catalog/schemas/catalog.py:260-264 | a value comes through as itself if and only if it already is such a term |
| `QueryTerms.SplitCsvIsIdempotent` | src/catalog/schemas/catalog.py:260-264 | joining the terms and parsing them again gives the same terms |
| `QueryTerms.SplitCsvAtComma` | src/catalog/schemas/catalog.py:260-264 | after a comma the terms of the second half follow those of the first, less those already said |
| `QueryTerms.SplitCsvOfPart` | src/catalog/schemas/catalog.py:260-264 | blanks around a term and its case do not matter, and blanks alone are no term |
| `Facets.AcidityFacet` | src/catalog/services/facets_service.py:199-212 | adds each group's count to its bucket |
| `Facets.BucketSumCounts` | src/catalog/repositories/facets_repository.py:64-72 | from any legal grouped answer each bucket holds how many values fall in it |
| `Facets.AcidityCountIsFilteredTotal` | src/catalog/services/facets_service.py:199-212 | the number beside an acidity option is what the filter finds |
| `Facets.AcidityCountsAddUp` | src/catalog/services/facets_service.py:199-212 | the three numbers sum to the category's active coffees |
| `FlavorFacets.FlavorFacet` | src/catalog/services/facets_service.py:184-197 | options in sorted order, each with its number of occurrences and the label from where its key first stands |
| `FlavorFacets.FlavorCountIsFilteredTotalIff` | src/catalog/services/facets_service.py:184-197 | for a key the parameter's parsing leaves alone, the number beside it is at least what choosing it finds, and equal if and only if no active coffee of the category lists it twice |
| `FlavorFacets.CountCanBeTrustedIff` | src/catalog/schemas/catalog.py:260-264 | the parsing leaves a key alone if and only if, in every catalogue that lists it once each, the number is what choosing it finds |
| `FlavorFacets.ChangedKeyMiscounts` | src/catalog/schemas/catalog.py:260-264 | for any other key a category that lists it once and shows a number that choosing it does not find |
| `FlavorFacets.RepeatedKeyIsCountedTwice` | src/catalog/services/facets_service.py:191-192 | a key one coffee lists twice is counted twice and found once |
| `FlavorFacets.OptionsAreOrdered` | src/catalog/services/facets_service.py:195 | options come by falling count and then key, in one order only |
| `FlavorFacets.StringLessMeans` | src/catalog/services/facets_service.py:195 | keys compare at the first character they differ in, a proper prefix first |
| `FlavorFacets.LabelIsTheFirst` | src/catalog/services/facets_service.py:188-194 | a key's label is the one beside it where it first stands, or else made of its words |
| `PaymentMethods.RunKeepsInv` | src/payments/method_service.py:36-127 | distinct ids and exactly one default per user survive any run |
| `PaymentMethods.OneDefaultAlways` | src/payments/method_service.py:36-127 | after any calls a user with a method has one default and only one |
| `PaymentMethods.OthersUntouched` | src/payments/method_service.py:145-161 | no call by one user changes, adds or removes a method of another |
| `PaymentMethods.SetDefaultIsObeyed` | src/payments/method_service.py:118-142 | the method set becomes the fallback for payments and nothing but flags changes |
| `PaymentMethods.DeletePromotesNewest` | src/payments/method_service.py:91-115 | deleting the default promotes one of the newest left; deleting another keeps the default |
| `PaymentMethods.DeleteUndoesSaveIff` | src/payments/method_service.py:36-115 | saving and deleting again restores the rows if and only if no older default lost its place or it is the one promoted back |
| `PaymentMethods.FirstListedIsDefault` | src/payments/method_service.py:74-88 | the first listed method is the one a payment falls back on |
| `PaymentMethodOutcomes.SaveOutcome` | src/payments/method_service.py:36-71 | saved if and only if the provider accepts the token; the new row holds what the provider returned and is the default if asked for or the first; other rows lose at most their default flag, and only the same user's |
| `PaymentMethodOutcomes.MakeDefaultOutcome` | src/payments/method_service.py:118-127 | accepted if and only if the method is the caller's; of the caller's rows exactly that one is then flagged |
| `PaymentMethodOutcomes.DeleteOutcome` | src/payments/method_service.py:91-115 | succeeds if and only if the method is the caller's and the provider lets go; it removes that row alone and flags at most the promoted one |
| `PaymentMethodStore.Store.ClearDefaults` | src/payments/method_service.py:156-161 | unsets the user's default and nothing else |
| `PaymentMethodStore.Store.SaveMethod` | src/payments/method_service.py:36-71 | new rows and result of saving, the first method becoming default |
| `PaymentMethodStore.Store.MakeDefault` | src/payments/method_service.py:118-127 | new rows and result of choosing a default |
| `PaymentMethodStore.Store.DeleteMethod` | src/payments/method_service.py:91-115 | new rows and result of a deletion, with some legal promotion |
| `PaymentMethodStore.Store.Newest` | src/payments/method_service.py:107-112 | one of the user's newest methods, or none |
| `PaymentMethodStore.Store.DefaultMethod` | src/payments/method_service.py:135-142 | the user's default |

## Left out

- HTTP routers, middleware, exception mapping, logging, administration of products and points, DTO mappers, migrations and the seed script: they would only add easy members.
- Concurrent transactions: the code takes no row locks; every statement here is about serial execution.
- Object identity and loading in the object-relational mapper: rows are values, relationships are the true rows.
- SubscriptionStore.Store.RefundPayments: an exception raised by the provider in the middle of a cancellation is not modelled.
- Cancellation.CancelAccounts: the ledger counts a refund asked for as a refund made; the code does not look at the provider's answer, so a refused one would mark its rows all the same.
- SubscriptionStore.Store.CreateSubscription: a charge is settled or declined; a provider exception is not told apart from a decline.
- KeyCache.Holder.FetchIntoCache: reading the Cache-Control header and parsing the key set are taken as given, as a fetch that succeeds with entries and an optional max-age, or fails; token decoding and signature checks are not part of this model.
- Calendar.AddMonthsIndex: the model has no last year, so the overflow of dates past the year 9999 is not captured.
- Averages.AverageOf: the quotient's 28 significant digits are written out for means from 1 up to 10, the only ones scores can have.
- Ratings.RunKeepsInv: the cascade that deletes ratings with a product or a user, and the float percentages of the breakdown, are not modelled.
- CatalogFilters.ApplyFilters: the minimum rating is an exact number, compared without floating point; prices are whole cents.
- CatalogPages.ListProducts: the database is a function that answers statements with sorted rows; names are ordered by an arbitrary collation.
- CatalogPages.SearchFindsLiterally: ILIKE folds ASCII letters; `LikeSearch.SearchMatchesLiterally` holds for any folding that leaves the three special characters alone.
- FlavorFacets.FlavorFacet: the capitalising of words in a label made from a key is an arbitrary function.
- QueryTerms.SplitCsvFixes: blanks and case are those of ASCII; the code strips and folds all of Unicode.
- Counts of the other facets and range bounds: one grouped query each, without a loop of their own.
- PaymentMethodStore.Store.SaveMethod: the provider's own record of cards is not modelled, only whether it accepted the token.
- OrderRuns.RunKeepsInv: subscription charges and order charges are two ledgers here; at the provider they share one series of transaction ids.
- Pickup-code randomness: the draws are an arbitrary function.
- OrderRuns.CreateOutcome: an order's notes, grind and currency, copied from the request, are not in its row.
- PaymentMethodOutcomes.SaveOutcome: what the provider returns for a card is one opaque token.
- Membership of enumerated filter values (`src/catalog/schemas/catalog.py:272-276`) is not modelled: it only refuses.
