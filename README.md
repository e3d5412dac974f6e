# RozgaarSetu in Dafny

RozgaarSetu is a web marketplace where customers book local service workers and employers post jobs for workers. This project models the logic of the application's screens in Dafny and proves properties of that model:

- **Worker bookings.** The worker's booking screen maps each action to a status update. It shows buttons per status, derives an "effective price" from the negotiation history, classifies and prices a submitted negotiation, and groups the negotiation ledger by booking.
- **Customer bookings.** The customer's booking screen handles the accept, counter and reject write sequence with its early aborts. It shows a price and decides when to render the "Respond" block.
- **Legacy customer screen.** An earlier customer screen rewrites its own in-memory list.
- **Worker dashboard.** Jobs are ranked by a skill and location score with an in-place sort over an array. The dashboard shows match badges and removes a job once the worker applies.
- **Booking wizard.** The worker list is filtered by skill. The offered price is floored at the worker's minimum, and the wizard inserts a pending request.
- **Employer dashboard.** It validates and posts a job, filters the pay field to digits, and updates application statuses in the per-job lists.
- **Sign-up and sign-in form.** It checks required fields, builds the profile row and maps sign-in error messages to alerts. It clears the form after a sign-up.
- **Language context.** It provides the `t` lookup, restores the saved language and translates skill names and worker types.
- **Task list.** Tasks can be added, toggled and deleted.

**Store and writes.** The hosted database is an in-memory object: `Bookings.Store`, `BookService.BookingRequests`, `Auth.UsersTable`, or a parameter holding the rows a query returns. Every write takes a `fails` flag, so the ordering of writes and the early aborts can be stated.

**Component state.** React component state becomes a Dafny `class` whose methods assign its fields. The pure computations become functions, with lemmas about them.

**JavaScript semantics.** The helpers in `JsText` are written out explicitly: `trim`, ASCII `toLowerCase`, `includes`, `split`, `parseInt`, `Number` and `toString`.

## Model

| member | source | states |
|---|---|---|
| Bookings.ApplyPatch | project-next/src/components/worker-bookings.tsx:262-265 | an update sets the status, and each of final price, schedule, completion time and update time it names; a column left out keeps its value; id, parties, service, request fields and offered price never change |
| Bookings.ApplyPatchTwice | project-next/src/components/worker-bookings.tsx:262-265 | sending the same update twice leaves the row as one update does |
| Bookings.PatchWhere | project-next/src/components/worker-bookings.tsx:262-265 | `update().eq('id', id)` patches exactly the rows with that id and leaves the others, the length and the order as they were |
| Bookings.Store.UpdateBooking | project-next/src/components/worker-bookings.tsx:262-265 | a booking update succeeds or fails as a whole and never touches the negotiation ledger |
| Bookings.Store.InsertNegotiation | project-next/src/components/worker-bookings.tsx:335-345 | a successful negotiation insert appends one row to the ledger and leaves the bookings as they were |
| WorkerBookings.ActionPatch | project-next/src/components/worker-bookings.tsx:233-258 | the five known actions give accepted, cancelled, confirmed, in progress and completed; any other string is the error "Unknown action: …"; only confirm writes a final price and schedule, and only complete stamps `completed_at` |
| WorkerBookings.ActionTarget | project-next/src/components/worker-bookings.tsx:233-258 | each of the five known actions succeeds and moves the booking to its own status |
| WorkerBookings.OfferedButtons | project-next/src/components/worker-bookings.tsx:602-691 | defines the buttons each status renders, in order; their lifecycle is stated by OfferedButtonsFollowLifecycle |
| WorkerBookings.OfferedButtonsFollowLifecycle | project-next/src/components/worker-bookings.tsx:602-691 | every action button a status renders is a known action that moves the booking along the lifecycle; completed and cancelled bookings offer no button |
| WorkerBookings.ConfirmWritesOfferedPrice | project-next/src/components/worker-bookings.tsx:656-659 | confirming from the card writes the original offered price as the final price, whatever the negotiation ended on |
| WorkerBookings.FindPriced | project-next/src/components/worker-bookings.tsx:405-408 | the entry found has a positive price |
| WorkerBookings.EffectivePrice | project-next/src/components/worker-bookings.tsx:401-415 | defines the price of the latest positively priced entry, else the offered price; characterised by EffectivePriceIsLatestOffer and EffectivePriceAppend |
| WorkerBookings.EffectivePriceAppend | project-next/src/components/worker-bookings.tsx:401-415 | appending a positively priced entry sets the effective price to its price; any other entry leaves the price unchanged |
| WorkerBookings.EffectivePriceIsLatestOffer | project-next/src/components/worker-bookings.tsx:401-415 | the effective price is that of the last entry with a positive price, or the offered price when no entry has one |
| WorkerBookings.CarriedPriceKeepsEffectivePrice | project-next/src/components/worker-bookings.tsx:302-326 | an entry carrying the current effective price, or no positive price, does not change the effective price |
| WorkerBookings.ClassifyMessage | project-next/src/components/worker-bookings.tsx:288-293 | a price offer is stored as such only with a price, and a time change only with a date or a time; anything else is stored as a plain message |
| WorkerBookings.PriceToStore | project-next/src/components/worker-bookings.tsx:296-326 | a submission that is not a price offer stores the selected booking's effective price, or null when no booking is selected |
| WorkerBookings.NegotiationRow | project-next/src/components/worker-bookings.tsx:335-345 | defines the ledger row a submission inserts: booking, sender, type, price, date, time and message |
| WorkerBookings.Prefill | project-next/src/components/worker-bookings.tsx:419-427 | the form opens on the booking with an empty message and has a price exactly for a price offer |
| WorkerBookings.PrefilledOfferStoresEffectivePrice | project-next/src/components/worker-bookings.tsx:419-427 | submitting a pre-filled price offer unchanged stores a price offer at exactly the effective price |
| WorkerBookings.PrefilledNonOfferKeepsPrice | project-next/src/components/worker-bookings.tsx:302-326 | a pre-filled message or time change is not a price offer and leaves the effective price unchanged once appended |
| WorkerBookings.GroupByBooking | project-next/src/components/worker-bookings.tsx:117-126 | the `reduce` loop builds, for each booking id that occurs, the list of its ledger rows in ledger order |
| WorkerBookings.ForBookingMembers | project-next/src/components/worker-bookings.tsx:117-126 | a booking's group holds exactly the ledger rows carrying its id |
| WorkerBookings.ForBookingConcat | project-next/src/components/worker-bookings.tsx:117-126 | grouping distributes over concatenation, so each group keeps ledger order |
| WorkerBookings.RowsOfWorker | project-next/src/components/worker-bookings.tsx:99 | the fetch keeps exactly the bookings of the signed-in worker |
| WorkerBookings.RowsOfWorkerMembers | project-next/src/components/worker-bookings.tsx:99 | a booking is fetched exactly when it is in the table and belongs to the worker |
| WorkerBookings.RowsOfWorkerConcat | project-next/src/components/worker-bookings.tsx:99 | the fetch distributes over concatenation, so the table's order is kept |
| WorkerBookings.Attach | project-next/src/components/worker-bookings.tsx:129-132 | every fetched booking is kept, in order, each with its group |
| WorkerBookings.FetchedHistories | project-next/src/components/worker-bookings.tsx:80-139 | every fetched booking belongs to the worker and carries exactly its own ledger rows, in ledger order |
| WorkerBookings.WorkerViews | project-next/src/components/worker-bookings.tsx:80-139 | defines what a successful read shows: the worker's bookings with their groups; characterised by FetchedHistories |
| WorkerBookings.FindView | project-next/src/components/worker-bookings.tsx:382 | `find` returns a booking with that id from the list, or nothing when no booking has it |
| WorkerBookings.FindViewFirst | project-next/src/components/worker-bookings.tsx:382 | `find` returns the first booking with the id |
| WorkerBookings.WorkerBookingsPage.FetchBookings | project-next/src/components/worker-bookings.tsx:80-146 | a successful read replaces the list with the worker's bookings and their histories; a failed read keeps the list |
| WorkerBookings.WorkerBookingsPage.HandleBookingAction | project-next/src/components/worker-bookings.tsx:213-266 | an unknown action writes nothing; a known action patches the booking and, on success, re-reads the list; the ledger is never written |
| WorkerBookings.WorkerBookingsPage.StartNegotiation | project-next/src/components/worker-bookings.tsx:394-431 | the modal opens on the booking with the pre-filled form |
| WorkerBookings.WorkerBookingsPage.Click | project-next/src/components/worker-bookings.tsx:602-691 | a form button opens the form and keeps the list and the store; an action button keeps the form, selection and modal, writes the action's update (with the offered price and preferred schedule for confirm), and re-reads the list only when the write and the read both succeed |
| WorkerBookings.WorkerBookingsPage.HandleNegotiation | project-next/src/components/worker-bookings.tsx:284-392 | the ledger row is inserted first, and a failed insert changes nothing on screen; a form with a price then sets the booking to negotiating; the form is cleared, the list is re-read, and a second, independent read refreshes the selection, which a failed second read leaves as it was; a failed list read keeps the shown list |
| WorkerBookings.WorkerBookingsPage.WriteNegotiation | project-next/src/components/worker-bookings.tsx:335-363 | the ledger row is inserted first; only after a successful insert does a priced form set the booking to negotiating |
| WorkerBookings.WorkerBookingsPage.RefreshSelection | project-next/src/components/worker-bookings.tsx:380-386 | the second read (an empty list when it fails) is searched for the selected booking, which is replaced when found and kept otherwise |
| CustomerBookings.CounterPriceIsTypedOrShown | project-next/src/app/my-bookings/page.tsx:215-218 | a counter typed as a number is stored as that number; an empty field falls back to the last entry's price or the offered price |
| CustomerBookings.ShownPrice | project-next/src/app/my-bookings/page.tsx:469-471 | defines the card price: the last history entry's price, else the offered price |
| CustomerBookings.CounterPrice | project-next/src/app/my-bookings/page.tsx:215-218 | defines the stored counter price: `parseInt` of the typed text, else the shown price; stated by CounterPriceIsTypedOrShown |
| CustomerBookings.ResolversAgree | project-next/src/app/my-bookings/page.tsx:469-471 | the customer's shown price equals the worker's effective price when the history is empty or ends on a positive price |
| CustomerBookings.ResolversCanDisagree | project-next/src/app/my-bookings/page.tsx:469-471 | after a priced offer followed by an unpriced message, the customer sees no price while the worker sees the offer |
| CustomerBookings.StatusUpdate | project-next/src/app/my-bookings/page.tsx:171-273 | accept, counter and reject write accepted, negotiating and cancelled with `updated_at` and nothing else |
| CustomerBookings.ResponseRow | project-next/src/app/my-bookings/page.tsx:171-273 | accept and reject record the message and the shown price; a counter records a price offer at the counter price with "Counter offer" as the default message |
| CustomerBookings.CounterOfferReachesBothSides | project-next/src/app/my-bookings/page.tsx:206-219 | a positive typed counter becomes both the worker's effective price and the customer's shown price |
| CustomerBookings.FirstWorkerIndex | project-next/src/app/my-bookings/page.tsx:440 | `findIndex` gives the first worker entry, or -1 when there is none |
| CustomerBookings.LastWorkerIndex | project-next/src/app/my-bookings/page.tsx:441 | the `map/filter/pop` chain gives the last worker entry, or nothing |
| CustomerBookings.RespondShownAsWritten | project-next/src/app/my-bookings/page.tsx:439-442 | defines the render condition as written; characterised by RespondAsWrittenNeedsSingleWorkerEntry |
| CustomerBookings.RespondShown | project-next/src/app/my-bookings/page.tsx:439-442 | defines the render condition as evidently intended: negotiating with a worker entry |
| CustomerBookings.RespondAsWrittenNeedsSingleWorkerEntry | project-next/src/app/my-bookings/page.tsx:439-442 | as written, the Respond block renders exactly for a negotiating booking with one worker entry |
| CustomerBookings.RespondBlockHiddenAfterSecondOffer | project-next/src/app/my-bookings/page.tsx:439-442 | the written condition implies the intended one, and a second worker offer hides the block under the written condition only |
| CustomerBookings.LatestWorkerOffer | project-next/src/app/my-bookings/page.tsx:447 | without a worker entry no latest worker offer is shown |
| CustomerBookings.LatestWorkerOfferIsLastWorkerEntry | project-next/src/app/my-bookings/page.tsx:447 | the latest worker offer is the price of the worker entry that no other worker entry follows |
| CustomerBookings.RowsOfCustomer | project-next/src/app/my-bookings/page.tsx:104-153 | the fetch keeps exactly the customer's bookings |
| CustomerBookings.RowsOfCustomerMembers | project-next/src/app/my-bookings/page.tsx:104-153 | a booking is fetched exactly when it is in the table and belongs to the customer |
| CustomerBookings.RowsOfCustomerConcat | project-next/src/app/my-bookings/page.tsx:104-153 | the fetch distributes over concatenation, so the table's order is kept |
| CustomerBookings.CustomerViews | project-next/src/app/my-bookings/page.tsx:104-153 | the fetched cards are the customer's rows, in order, each without a history |
| CustomerBookings.FetchedCardsShowOfferedPrice | project-next/src/app/my-bookings/page.tsx:104-153 | every fetched card shows its offered price and renders no Respond block |
| CustomerBookings.CustomerBookingsPage.FetchBookings | project-next/src/app/my-bookings/page.tsx:104-153 | a failed read empties the list |
| CustomerBookings.CustomerBookingsPage.OpenResponse | project-next/src/app/my-bookings/page.tsx:454 | the Respond button selects the booking only when the block renders, under the corrected condition of the first Findings row |
| CustomerBookings.CustomerBookingsPage.HandleResponse | project-next/src/app/my-bookings/page.tsx:155-290 | accept and reject update the booking first and stop if that fails, and then record a message only when one was typed; a counter inserts first and stops on failure, then sets negotiating; a counter with neither a message nor a price writes nothing; unless stopped, the list is refreshed and the inputs cleared |
| CustomerBookings.CustomerBookingsPage.WriteResponse | project-next/src/app/my-bookings/page.tsx:155-273 | the handler stops exactly when its first write fails; accept and reject patch the status and then record a typed message; a counter records the row and then sets negotiating; an empty counter writes nothing |
| LegacyBookings.Respond | project-next/src/app/my-bookings/page_old.tsx:312-320 | accept, reject and counter set accepted, cancelled and negotiating; only a counter sets the negotiated price; the history is kept |
| LegacyBookings.RespondAll | project-next/src/app/my-bookings/page_old.tsx:312-320 | only the bookings with that id change, and the list keeps its length |
| LegacyBookings.ShownPrice | project-next/src/app/my-bookings/page_old.tsx:380 | defines `negotiated_price \|\| offered_price` |
| LegacyBookings.LatestOffer | project-next/src/app/my-bookings/page_old.tsx:505 | defines the last entry's price, or the offered price without history |
| LegacyBookings.AwaitingResponse | project-next/src/app/my-bookings/page_old.tsx:459-466 | defines the badge condition: a worker entry, negotiating, and the last entry |
| LegacyBookings.ShownPriceAfterResponse | project-next/src/app/my-bookings/page_old.tsx:380 | after a non-zero numeric counter the card shows it; an empty or unparsable counter falls back to the offered price; accept and reject keep the shown price |
| LegacyBookings.OffersReceived | project-next/src/app/my-bookings/page_old.tsx:484 | the offers count never exceeds the history length |
| LegacyBookings.OffersReceivedAppend | project-next/src/app/my-bookings/page_old.tsx:484 | a new entry adds one offer exactly when it is the worker's |
| LegacyBookings.AwaitingResponseOnLatestWorkerEntry | project-next/src/app/my-bookings/page_old.tsx:459-460 | the "awaiting" badge sits on at most one entry: the latest entry, when it is the worker's and the booking is negotiating; its price is the latest offer |
| LegacyBookings.RespondKeepsHistory | project-next/src/app/my-bookings/page_old.tsx:312-320 | a response keeps the offers count and the latest offer |
| LegacyBookings.LegacyBookingsPage.OpenResponse | project-next/src/app/my-bookings/page_old.tsx:494-513 | the response panel opens only for a negotiating booking |
| LegacyBookings.LegacyBookingsPage.HandleResponse | project-next/src/app/my-bookings/page_old.tsx:307-325 | the list is rewritten by the response, the panel is closed and both inputs are cleared |
| Language.RestoreLanguage | project-next/src/contexts/LanguageContext.tsx:445-453 | a stored "en" or "mr" is restored; anything else leaves Hindi |
| Language.RestoreSavedLanguage | project-next/src/contexts/LanguageContext.tsx:456-459 | the language chosen is the one restored on the next load |
| Language.T | project-next/src/contexts/LanguageContext.tsx:462-465 | the entry when present and non-empty, else the key itself |
| Language.TablesCoverEnglishKeys | project-next/src/contexts/LanguageContext.tsx:497-583 | the Hindi and Marathi skill and worker-type tables have exactly the English keys, all with non-empty entries |
| Language.SkillLookupIgnoresCase | project-next/src/contexts/LanguageContext.tsx:747-753 | two spellings of a known skill that lowercase alike translate alike |
| Language.SkillLookupFallback | project-next/src/contexts/LanguageContext.tsx:747-753 | English, the empty name and an unknown name come back unchanged |
| Language.TranslateSkillName | project-next/src/contexts/LanguageContext.tsx:747-753 | defines `translateSkillName`: English and the empty name pass through, else the lowercase lookup or the name itself; stated by SkillLookupIgnoresCase and SkillLookupFallback |
| Language.TranslateWorkerType | project-next/src/contexts/LanguageContext.tsx:756-761 | English, the empty type and an unknown type come back unchanged; otherwise an exact-case lookup |
| Language.TranslateJobContent | project-next/src/contexts/LanguageContext.tsx:711-712 | English and the empty text come back unchanged |
| Language.LanguageProvider.constructor | project-next/src/contexts/LanguageContext.tsx:445-453 | mounting starts in Hindi and then takes a stored code if it is known |
| Language.LanguageProvider.SetLanguage | project-next/src/contexts/LanguageContext.tsx:456-459 | the language and its stored code change together, so a reload restores it |
| JobMatching.SkillPoints | project-next/src/components/worker-dashboard.tsx:73-103 | a skill scores zero exactly when it matches neither title, description nor worker type, and never above 24000 |
| JobMatching.SkillMatchIff | project-next/src/components/worker-dashboard.tsx:73-103 | the skill-match flag is set exactly when some skill matches |
| JobMatching.SkillScoreZeroIffNoMatch | project-next/src/components/worker-dashboard.tsx:73-103 | the skill score is zero exactly when no skill matches |
| JobMatching.PartialCount | project-next/src/components/worker-dashboard.tsx:127-142 | at most one partial match is counted per worker location part |
| JobMatching.PartialCountPositive | project-next/src/components/worker-dashboard.tsx:127-142 | the partial count is positive exactly when some worker part longer than two characters occurs in some job part |
| JobMatching.LocationBonus | project-next/src/components/worker-dashboard.tsx:105-142 | a containing location earns 1000; otherwise 500 per partially matching part |
| JobMatching.LocationNeedsSkillMatch | project-next/src/components/worker-dashboard.tsx:105-110 | without a skill match, or without a worker location, no location bonus is added; without a skill match the score is zero |
| JobMatching.JobScore | project-next/src/components/worker-dashboard.tsx:60-142 | defines the score without recency: skill points plus the location bonus after a skill match; computed by ScoreJob |
| JobMatching.MatchOutranksNoMatch | project-next/src/components/worker-dashboard.tsx:57-152 | a job with a skill match always ranks above one without |
| JobMatching.ScoreJob | project-next/src/components/worker-dashboard.tsx:60-150 | the scoring loops compute the job score and the skill-match flag |
| JobMatching.LocationPoints | project-next/src/components/worker-dashboard.tsx:105-142 | the location loops compute the location bonus |
| JobMatching.Compare | project-next/src/components/worker-dashboard.tsx:57-152 | the comparator returns the second score minus the first |
| JobMatching.SortByKey | project-next/src/components/worker-dashboard.tsx:57 | the in-place sort leaves the array in descending key order and a permutation of its contents |
| JobMatching.SinkInto | project-next/src/components/worker-dashboard.tsx:57 | one insertion step extends the sorted prefix by one element and keeps the contents |
| JobMatching.SwapDown | project-next/src/components/worker-dashboard.tsx:57 | one swap moves the rising element up a place and keeps the contents |
| JobMatching.SmartSortJobs | project-next/src/components/worker-dashboard.tsx:53-152 | the jobs end up in descending score order and are a permutation of the input |
| JobMatching.MatchedSkills | project-next/src/components/worker-dashboard.tsx:179-185 | the badge lists only the worker's skills that match the job |
| JobMatching.MatchedSkillsMembers | project-next/src/components/worker-dashboard.tsx:179-185 | every skill of the worker that matches the job is listed, and nothing else |
| JobMatching.MatchedSkillsConcat | project-next/src/components/worker-dashboard.tsx:179-185 | matching distributes over concatenation, so the matched skills keep the worker's order and `FirstTwo` takes the first two of them |
| JobMatching.TranslateAll | project-next/src/components/worker-dashboard.tsx:179-185 | every matched skill is translated, in order |
| JobMatching.TranslateAllSnoc | project-next/src/components/worker-dashboard.tsx:179-185 | translating one more matched skill appends its translation |
| JobMatching.FirstTwo | project-next/src/components/worker-dashboard.tsx:179-185 | the badge keeps the first two skills, or all of them when there are fewer |
| JobMatching.BadgeShape | project-next/src/components/worker-dashboard.tsx:155-202 | no badge without a skill match; otherwise a skill badge first with one or two skills, at most two badges, and never both location badges |
| JobMatching.BadgesAgreeWithScore | project-next/src/components/worker-dashboard.tsx:155-202 | a location badge appears exactly when the score gets a location bonus, and "Perfect Location" means the 1000 bonus |
| JobMatching.Badges | project-next/src/components/worker-dashboard.tsx:155-202 | defines the badges of a card, in order; shaped by BadgeShape and checked against the score by BadgesAgreeWithScore |
| JobMatching.LocationBadgesAgree | project-next/src/components/worker-dashboard.tsx:188-198 | the location badge follows the location bonus |
| JobMatching.GetJobMatchInfo | project-next/src/components/worker-dashboard.tsx:155-202 | the badge loop computes the badges |
| JobMatching.CollectMatchedSkills | project-next/src/components/worker-dashboard.tsx:179-185 | the skills loop sets the match flag exactly when some skill matches and collects the translated matched skills in order |
| JobMatching.LocationBadge | project-next/src/components/worker-dashboard.tsx:188-198 | the location checks give the badge that the location bonus predicts |
| JobMatching.AvailableJobsMembers | project-next/src/components/worker-dashboard.tsx:256-258 | a job is offered exactly when the worker has not applied to it |
| JobMatching.AvailableJobs | project-next/src/components/worker-dashboard.tsx:256-258 | defines the filter of the jobs not applied to, in order; stated by AvailableJobsMembers |
| JobMatching.WithoutJobMembers | project-next/src/components/worker-dashboard.tsx:333 | removing a job keeps exactly the jobs with another id |
| JobMatching.WithoutJob | project-next/src/components/worker-dashboard.tsx:333 | defines the removal of a job by id, in order; stated by WithoutJobMembers, WithoutJobConcat and WithoutJobKeepsOrder |
| JobMatching.LocalApplyMatchesRefetch | project-next/src/components/worker-dashboard.tsx:332-333 | removing the applied job locally gives the same list a refetch would |
| JobMatching.WithoutJobConcat | project-next/src/components/worker-dashboard.tsx:333 | removal distributes over concatenation, so the order is kept |
| JobMatching.WithoutJobKeepsOrder | project-next/src/components/worker-dashboard.tsx:333 | removing a job keeps the list sorted by score |
| JobMatching.WorkerDashboard.constructor | project-next/src/components/worker-dashboard.tsx:47 | the dashboard starts empty and not applying |
| JobMatching.WorkerDashboard.FetchJobs | project-next/src/components/worker-dashboard.tsx:256-262 | the offered jobs are a ranked permutation of the jobs not applied to |
| JobMatching.WorkerDashboard.HandleApply | project-next/src/components/worker-dashboard.tsx:278-345 | a repeated click is ignored; a successful apply puts the pending application first and removes the job; no applied job is ever offered and the ranking is kept |
| JobMatching.WorkerDashboard.ApplyTimerFired | project-next/src/components/worker-dashboard.tsx:344 | the deferred reset clears the in-progress job |
| BookService.LoweredSkills | project-next/src/app/book-service/page.tsx:283-293 | a list is lowercased element by element, a plain string becomes one lowercased skill, and a missing column gives none |
| BookService.WorkerFits | project-next/src/app/book-service/page.tsx:280-308 | defines the worker filter: truthy skills, one of which contains the category, the service or a category synonym |
| BookService.NoSkillsNeverFit | project-next/src/app/book-service/page.tsx:281 | a worker with no skills, an empty string or an empty list is never shown |
| BookService.EmptyNameFitsEveryone | project-next/src/app/book-service/page.tsx:298-300 | with an empty category or service name, every worker with a skill fits |
| BookService.SynonymFits | project-next/src/app/book-service/page.tsx:301-305 | a skill containing a synonym of the category fits |
| BookService.FittingRows | project-next/src/app/book-service/page.tsx:280-310 | exactly the fitting rows are kept |
| BookService.FormatWorker | project-next/src/app/book-service/page.tsx:315-328 | formatting fails exactly on a plain-string skills column; otherwise the ids are kept and absent or zero numbers take the defaults 0, 10 and 2 |
| BookService.FormatWorkerTexts | project-next/src/app/book-service/page.tsx:318-327 | a filled name, bio, location or phone is shown as it is; otherwise the second column or the placeholder text ("Professional Worker", the category sentence, "Your Area", "9876543210") |
| BookService.FormatAll | project-next/src/app/book-service/page.tsx:315-329 | formatting the list succeeds exactly when no row holds plain-string skills |
| BookService.ShownWorkers | project-next/src/app/book-service/page.tsx:227-340 | a failed read shows nobody; every worker shown comes from a fitting row and carries the service id |
| BookService.FittingWorkersShown | project-next/src/app/book-service/page.tsx:227-340 | when no row holds plain-string skills, every fitting worker is shown |
| BookService.WorkersAfterServiceSelectAsWritten | project-next/src/app/book-service/page.tsx:232-233 | as written, the filter runs with no service name, since the service list only renders while none is selected (page.tsx:485); after a successful read with no plain-string skills column, every worker with a skill is shown, whatever the category |
| BookService.AsWrittenShowsEverySkilledWorker | project-next/src/app/book-service/page.tsx:296-300 | with the service name absent, `includes('')` lets every worker with a non-empty skill list through the filter and into the shown list |
| BookService.WorkersAfterServiceSelect | project-next/src/app/book-service/page.tsx:352-358 | every worker shown fits the category or the service just clicked |
| BookService.StaleServiceNameShowsUnrelatedWorker | project-next/src/app/book-service/page.tsx:232-233 | on a service click, a driver is shown for a plumbing service as written, and not after the fix |
| BookService.UnrelatedWorkerNotOffered | project-next/src/app/book-service/page.tsx:298-306 | a worker none of whose skills fits the category or the clicked service is never offered |
| BookService.FlooredPrice | project-next/src/app/book-service/page.tsx:367 | the new price text reads as the larger of the previous number (0 when unreadable) and the worker's minimum |
| BookService.FlooredPriceProperties | project-next/src/app/book-service/page.tsx:361-370 | the floored price is at least the minimum and at least the previous price, and flooring twice changes nothing |
| BookService.RequestOf | project-next/src/app/book-service/page.tsx:377-391 | the request is pending and carries the customer, service, worker, description and location |
| BookService.BookingRequests.Insert | project-next/src/app/book-service/page.tsx:377-393 | a successful insert appends the request |
| BookService.AllPendingSnoc | project-next/src/app/book-service/page.tsx:389 | adding a pending request keeps every stored request pending |
| BookService.BookingWizard.CategorySelect | project-next/src/app/book-service/page.tsx:342-350 | choosing a category clears the service, the worker and the worker list |
| BookService.BookingWizard.ServiceSelect | project-next/src/app/book-service/page.tsx:352-359 | choosing a service clears the worker, sets the price text to the base price and lists the workers for that service, with the corrected filter of the second Findings row |
| BookService.BookingWizard.WorkerSelect | project-next/src/app/book-service/page.tsx:361-370 | choosing a worker with a positive minimum floors the price; otherwise the form is kept |
| BookService.BookingWizard.BookingSubmit | project-next/src/app/book-service/page.tsx:372-415 | nothing is sent without a service, a worker and a user; a successful insert resets the wizard; all stored requests stay pending |
| BookService.BookingWizard.Reset | project-next/src/app/book-service/page.tsx:397-409 | after a booking the category, service and worker are cleared and the form is blank |
| EmployerDashboard.ValidateJob | project-next/src/components/employer-dashboard.tsx:136-159 | a job is accepted exactly when every trimmed text field is present and the pay parses as a positive number; the error says which check failed |
| EmployerDashboard.PostedJob | project-next/src/components/employer-dashboard.tsx:141-148 | the posted job carries the validated data and the new id |
| EmployerDashboard.RepostValidatesToSameData | project-next/src/components/employer-dashboard.tsx:136-159 | a posted job, typed back into the form, validates to the same data |
| EmployerDashboard.FilteredPayParses | project-next/src/components/employer-dashboard.tsx:327-333 | a pay accepted by the field filter parses as its digits, and an empty pay is NaN |
| EmployerDashboard.SetStatus | project-next/src/components/employer-dashboard.tsx:244-249 | only the application with that id changes status; the list keeps its length and order |
| EmployerDashboard.UpdateApplications | project-next/src/components/employer-dashboard.tsx:244-249 | only the named job's list changes and the job keys stay the same |
| EmployerDashboard.SetStatusIdempotent | project-next/src/components/employer-dashboard.tsx:244-249 | setting a status twice is setting it once, and setting the status an application already has changes nothing |
| EmployerDashboard.Dashboard.constructor | project-next/src/components/employer-dashboard.tsx:50-51 | the dashboard starts idle with a blank, hidden form |
| EmployerDashboard.Dashboard.PayChanged | project-next/src/components/employer-dashboard.tsx:327-333 | only empty or all-digit input reaches the pay field |
| EmployerDashboard.Dashboard.PostJob | project-next/src/components/employer-dashboard.tsx:129-214 | a post in flight is ignored; invalid input changes nothing; a successful insert puts the job first and closes and clears the form |
| EmployerDashboard.Dashboard.Insert | project-next/src/components/employer-dashboard.tsx:167-202 | the post is marked in flight; on success the job goes first and the form is blanked and hidden |
| EmployerDashboard.Dashboard.PostTimerFired | project-next/src/components/employer-dashboard.tsx:212 | the deferred reset clears the in-flight flag |
| EmployerDashboard.Dashboard.UpdateApplicationStatus | project-next/src/components/employer-dashboard.tsx:216-260 | a repeated update of the same application is ignored; otherwise the status changes in its job's list when the store accepts it |
| EmployerDashboard.Dashboard.UpdateTimerFired | project-next/src/components/employer-dashboard.tsx:258 | the deferred reset clears the updating application |
| Auth.SignUpError | project-next/src/components/auth.tsx:110-121 | sign-up goes ahead exactly when the four fields are non-empty and a worker's skills and experience are not blank; the first failed check picks the message |
| Auth.NonEmptyPieces | project-next/src/components/auth.tsx:146 | the filter keeps only non-empty pieces, and keeps all of them when none is empty |
| Auth.NonEmptyPiecesMembers | project-next/src/components/auth.tsx:146 | the filter keeps exactly the non-empty pieces |
| Auth.NonEmptyPiecesConcat | project-next/src/components/auth.tsx:146 | the filter distributes over concatenation, so the kept pieces stay in order |
| Auth.ProfileSkills | project-next/src/components/auth.tsx:146 | defines split, trim and filter of the skills text; stated by ProfileSkillsClean and ProfileSkillsOfJoin |
| Auth.ProfileSkillsClean | project-next/src/components/auth.tsx:146 | every stored skill is non-empty, trimmed and comma-free |
| Auth.TrimmedPieceClean | project-next/src/components/auth.tsx:146 | each trimmed comma-separated piece is trimmed and comma-free |
| Auth.ProfileSkillsOfJoin | project-next/src/components/auth.tsx:146 | typing clean skills separated by commas stores exactly those skills |
| Auth.CommasOnlySkillsStoreNothing | project-next/src/components/auth.tsx:117-146 | a skills text of only commas passes the worker check and still stores no skill |
| Auth.ProfileOf | project-next/src/components/auth.tsx:138-149 | skills and experience are stored for a worker only (NaN or zero experience gives 0); age is `parseInt` of the text without a radix; bio is kept |
| JsText.HexWithoutRadix | project-next/src/components/auth.tsx:142 | without a radix `parseInt("0x1A")` is 26, where the decimal reading stops at the `x` |
| JsText.SignedHexWithoutRadix | project-next/src/components/auth.tsx:142 | a sign before `0x` applies to the hexadecimal value |
| JsText.BareHexPrefix | project-next/src/components/auth.tsx:142 | a bare `0x` without a radix is NaN |
| JsText.ParseIntAutoDigits | project-next/src/components/auth.tsx:147 | without a radix a string of decimal digits still reads as its decimal value |
| JsText.Trim | project-next/src/components/employer-dashboard.tsx:142-145 | defines `trim()`; stated by TrimSpec |
| JsText.ToLower | project-next/src/components/worker-dashboard.tsx:62-63 | the ASCII `toLowerCase()` keeps the length and lowers each letter |
| JsText.Includes | project-next/src/components/worker-dashboard.tsx:77-85 | defines `includes`: the text occurs at some position |
| JsText.Split | project-next/src/components/auth.tsx:146 | `split(',')` gives at least one piece; stated by JoinSplit |
| JsText.ParseInt | project-next/src/components/employer-dashboard.tsx:136 | defines `parseInt(s, 10)`: whitespace, sign, then the leading digits, NaN without a digit |
| JsText.ParseIntAuto | project-next/src/components/auth.tsx:142 | `parseInt(s)` without a radix agrees with the radix 10 unless a `0x` follows the sign |
| JsText.ToNumber | project-next/src/components/worker-bookings.tsx:300 | defines `Number(s)` on integer text: empty gives 0, a signed run of digits its value, anything else NaN |
| Auth.ProfileExperience | project-next/src/components/auth.tsx:147 | a worker who typed digits gets that number of years; an employer's worker-only fields are ignored |
| Auth.SignInAlert | project-next/src/components/auth.tsx:81-89 | rate limiting wins over bad credentials, which win over an unconfirmed address; an unrecognised message is shown as is |
| Auth.UsersTable.Upsert | project-next/src/components/auth.tsx:156-162 | a successful upsert replaces the row with that id |
| Auth.AuthForm.constructor | project-next/src/components/auth.tsx:10-24 | the form starts blank on sign-in with the worker role |
| Auth.AuthForm.SignIn | project-next/src/components/auth.tsx:63-99 | a failed sign-in shows the mapped alert and changes nothing on the form |
| Auth.AuthForm.SignUp | project-next/src/components/auth.tsx:102-203 | a failed check, an account error or a missing user changes nothing; a new user gets a profile row or a local copy, and the form is cleared (role kept) and switched to sign-in |
| Auth.AuthForm.CreateAccount | project-next/src/components/auth.tsx:134-196 | the profile is written or kept locally, then the form is cleared and the view switched |
| Auth.AuthForm.SaveProfile | project-next/src/components/auth.tsx:153-178 | a failed profile write keeps the profile locally and says so |
| Auth.AuthForm.ClearForm | project-next/src/components/auth.tsx:183-195 | every text field is blanked, the role is kept and the view is sign-in |
| TaskManager.Toggled | project-next/src/components/task-manager.tsx:73-75 | only the tasks with that id flip their flag; ids, titles and order are kept |
| TaskManager.ToggleTwice | project-next/src/components/task-manager.tsx:73-75 | toggling a task and toggling it back restores the list |
| TaskManager.ToggleFromButton | project-next/src/components/task-manager.tsx:138 | with distinct ids, a task's checkbox flips exactly that task |
| TaskManager.WithoutTask | project-next/src/components/task-manager.tsx:90 | a task survives deletion exactly when its id differs |
| TaskManager.WithoutTaskConcat | project-next/src/components/task-manager.tsx:90 | deletion distributes over concatenation, so the rest keeps its order |
| TaskManager.WithoutAbsentTask | project-next/src/components/task-manager.tsx:90 | deleting an absent id changes nothing, so deleting twice is deleting once |
| TaskManager.DeleteUndoesAdd | project-next/src/components/task-manager.tsx:57-90 | deleting the task just added restores the list before the add |
| TaskManager.TaskList.constructor | project-next/src/components/task-manager.tsx:19-20 | the list starts with the fetched tasks and an empty input |
| TaskManager.TaskList.TitleChanged | project-next/src/components/task-manager.tsx:104 | the input holds what was typed |
| TaskManager.TaskList.AddTask | project-next/src/components/task-manager.tsx:45-63 | a blank title or a failed insert changes nothing; otherwise the task goes at the end and the input is cleared |
| TaskManager.TaskList.ToggleTask | project-next/src/components/task-manager.tsx:65-80 | on success the tasks with that id take the negation of the flag passed in |
| TaskManager.TaskList.DeleteTask | project-next/src/components/task-manager.tsx:82-95 | on success the tasks with that id are removed |

## Left out

- Supabase calls are in-memory objects or parameters plus a success flag. This covers the query builders, joins, `auth.*`, the multi-table fallback chain in the booking wizard and `user-profile.ts`.
- The store's sort orders (`order('created_at', …)`) are the order of the rows given to the model.
- Timers and async races are left out: the 10-second watchdogs, the `Promise.race` fetch timeout, `loading` flags and `useAsyncOperation`. The 100 ms deferred flag resets are the separate `…TimerFired` methods.
- `window.confirm` is always confirmed. Alerts and console output are not modelled, except the alert texts the sign-up and sign-in handlers choose.
- JSON parsing of a skills string is not modelled. A string holding a JSON list is represented by that list. A plain string is kept as a string, and formatting it throws, so the list is empty. A string holding any other JSON value (such as `"123"`) is treated as a plain string too, although in the source the formatter does not throw on it.
- Number parsing is integer-only. `parseInt` reads an optional sign and the digits that follow, stopping at the first other character, so `parseInt("3.5")` is 3 in the model as in JavaScript. Without a radix (the age and experience fields and the counter offer), a `0x` or `0X` after the sign reads hexadecimal digits; the employer form passes the radix 10.
- JsText.ToNumber: `Number` reads only an optional sign and decimal digits. Fractions, exponents, `Infinity` and hexadecimal, octal and binary literals, which JavaScript turns into numbers, read as NaN in the model.
- The static fallback catalogues of categories and services, locale date formatting and the presentational and routing files are left out.
- The word-replacement body of `translateJobContent` is given as a parameter. It depends on regular-expression word boundaries over mixed scripts.
- Table lookups do not model JavaScript prototype keys (such as `constructor`) being found in a plain object.
- The `from_customer` flag the worker screen derives is left out. It compares `message_type` with a value the application never writes, and nothing renders it.
- JobMatching.SmartSortJobs: orders by the integer skill and location score only, and the sort is stable where the source's comparator leaves ties to the engine. The recency term (worker-dashboard.tsx:145-148) is left out. It is `Math.min(daysDiff * 10, 100)`, capped only from above, so it has no lower bound, and it is added to the second job's score only, so the source's comparator is not antisymmetric. With it, a matching job some 600 days older than a non-matching one can sort below it. JobMatching.MatchOutranksNoMatch, JobMatching.Compare and the order JobMatching.SortByKey establishes hold for the score without recency.
- BookService.BookingWizard.ServiceSelect: lists the workers with the corrected filter, for the service just clicked. As written, the handler reads `selectedService` from the render the click came from, which is always empty because the service list only renders while no service is selected (page.tsx:485), so every service click filters with no service name; BookService.WorkersAfterServiceSelectAsWritten models that, and the second Findings row shows the difference.
- CustomerBookings.CustomerBookingsPage.OpenResponse: opens under the corrected render condition, a negotiating booking with a worker entry. As written, the button sits under the condition of CustomerBookings.RespondShownAsWritten (my-bookings/page.tsx:439-442); the first Findings row shows the difference. On this page neither condition holds for a fetched booking, since the fetch reads no history (CustomerBookings.FetchedCardsShowOfferedPrice).
- The `from_worker` flag of the customer screen (my-bookings/page.tsx:45) is declared as a derived field, but nothing derives it. The model takes it as the parameter `isWorker`, so its statements hold for any way of marking worker entries.
- EmployerDashboard.UpdateApplications: a job id with no list leaves the map unchanged. In the source, the updater throws on the missing list.
- Auth.AuthForm.SignUp: the branch where the profile write throws is merged with the branch where it returns an error. In the source, the alert text differs slightly between the two.
- Auth.AuthForm.SignIn: the preliminary sign-out and the 500 ms wait are left out.
- TaskManager.TaskList.AddTask: the inserted row is assumed to come back with the typed title and `is_complete` false, as the table's default gives it.

## Findings

| source | as written | input that shows it | evidently intended | confidence | as-written member | corrected member |
|---|---|---|---|---|---|---|
| project-next/src/app/my-bookings/page.tsx:439-442 | the Respond block renders only when the index of the first worker entry equals the index of the last one, that is, when the history holds exactly one worker entry | a negotiating booking whose history holds two worker offers: the block with "Latest Worker Offer" and the Respond button disappears. The page as it stands never loads a history (fetchBookings at page.tsx:142-144 reads no negotiations) and nothing sets `from_worker` (page.tsx:45), so the input arises only once histories are loaded and marked | the block renders for every negotiating booking with a worker entry, showing the latest worker offer | not executed | CustomerBookings.RespondAsWrittenNeedsSingleWorkerEntry | CustomerBookings.RespondBlockHiddenAfterSecondOffer |
| project-next/src/app/book-service/page.tsx:232-233 | `fetchAvailableWorkers` reads `selectedService` from the render the click came from, before `handleServiceSelect` set it; the service list only renders while no service is selected (page.tsx:485), so on every service click the service name is missing and `includes('')` accepts every worker with a skill | category "Plumbing", service "Pipe Repair", and one worker whose only skill is "driving": the driver is offered | workers are filtered by the service just clicked | not executed | BookService.StaleServiceNameShowsUnrelatedWorker | BookService.WorkersAfterServiceSelect |
