# A verified model of the SIP proxy

The program is a SIP proxy after RFC 3261. A request arrives in a server transaction; the
proxy forwards copies of it in client transactions, ties both together in a two-way index
of response contexts, and lets downstream responses, time-outs, Timer C and CANCEL compete
for the one final answer. Around this core stand a routing trie, a registrar, and the
parsing, printing and copying of URIs, Via headers and messages.

The project models these parts and proves what they are for. Each part has a specification
made of pure functions (a step function, a table as a map, a text as a sequence of bytes);
the parts that the program writes as loops and objects are methods and classes proved to
follow it.

- `ResponseContexts`, `ProxyCore`, `ProxySafety`, `ProxyRuns`, `ProxyPanics`, `Proxy`: the core
  as a state machine over handler-sized steps, its accounts, its runs, where it panics, and the
  handlers as methods. `CallerAnswers` follows an answer from the core to the wire;
  `Composition` puts the core and the transaction machines together.
- `Transactions`, `ServerTransactions`, `ClientTransactions`, `ServerController`,
  `ClientController`: the four transaction machines over messages and timers, and the
  controllers as the loops they are.
- `PrefixTries`, `Registration`, `Registrar`, `Routing`: the trie on the heap, the register
  table, the register controller, the choice of a target.
- `Percent`, `Uris`, `UriPrinting`, `UriRoundTrip`, `UriParsed`, `UriObjects`: escaping,
  parsing and printing of URIs, and the path hint.
- `Vias`, `ViaStack`, `Params`, `ReturnPath`, `Messages`, `Derivation`, `Forwarding`: Via
  lists and stacks, parameters, what is derived from a message, and the way of a call there
  and back.
- `Wrappers`, `Searching`: shared datatypes and searching in sequences.

## What holds, and where the code departs from its intent

**No call is answered twice.** In every reachable state of the core, the final responses
handed to a server transaction, those lost for want of a Via, and its live branches add up
to exactly one (`ProxyRuns.AnsweredAtMostOnce`). This needs fresh client keys and server
transactions that leave their table only after a final response. The second condition can
fail: an ACK that comes before any final response destroys an INVITE server transaction
(`ServerTransactions.EarlyAckEnds`, and nothing but such a message or a destruction from
outside does, `ClosedEarlyWhy`); if its key arrives once more while the first branch is live,
two different finals reach one transaction (`ProxyRuns.ReuseAnswersTwice`).
`ProxySafety.GoodExactly` gives the exact condition, step by step.

That assumption, and the like one for client transactions, is derived in
`Composition.ComposedConforms`: transactions leave their tables by runs of their own machines,
fed with what the core handed over or got, and all that is left to assume is that no early ACK
and no destruction from outside disturbs them, besides rules on what comes in.

**Where a handler panics.** A step of the model halts if and only if `ProxyCore.Panics` holds of
the state before it (`ProxyRuns.TimerCSafe`), which has two parts. `Misses`: a CANCEL or a client
transaction's error finds no transaction in a table; a redirection finds no request that was
sent, because the last INVITE with its Call-ID was refused (`ProxyPanics.RedirectionPanics`,
`RefusedInvitePanics`); an ACK outside a transaction cannot be forwarded and its error is written
to a transaction that is not there; Timer C destroys a client transaction that is gone.
`Misprints`: a handler prints a Contact when it records a caller, an established call or forwards
an ACK, Route values when it rewrites them, and From and To when it closes a call's entry
(`FirstPanics`); a value without an address cannot be printed (sip/header.go:74-77), and neither
can one whose URI has no user where `Userinfo.String` of net/url takes no null. Timer C's
channels are never misused. A run that keeps the rules of `ProxyRuns.Conforming` has none of
these panics (`ConformingRunSafe`). What the model does not have, such as a message without its
mandatory headers or the writing on the wire inside a transaction, is listed under Left out.

**A declined call can be lost.** The second wait of the INVITE server transaction takes
final responses up to 600 only (sip/transaction.go:699-710), the first up to 699. After a
provisional response a 603 is never sent (`ServerTransactions.FinalGoesOutIff`,
`DeclineIsLost`). In a conforming run that hands over a final response, the caller gets it if
and only if it is at most 600 or nothing went before it (`CallerAnswers.CallerGetsFinal`); that
a declined call stays without any is a conforming run too (`DeclinedUnheard`).

**A refused INVITE is reported only from Calling.** `Err` is set for 300-699 in Calling
(sip/transaction.go:354) but not in Proceeding, whatever follows
(`ClientTransactions.RefusalReported`).

**Timers E and F start again with every provisional response**, unlike section 17.1.2.2 of
RFC 3261. With T2 = 8·T1, k provisionals allow 1 + 10(k + 1) copies and no more; more than eleven
can go out exactly when a provisional was consumed (`ClientTransactions.CopiesExactly`).
`StretchedRequest` is the run that does it.

**The registrar's CSeq test is reversed.** It refuses a number that is not lower than the
stored one, where section 10.3 of RFC 3261 refuses one that is not higher. After any series of
calls, a call without faults is refused if and only if it changes bindings and the last accepted
call of its address had the same Call-ID and a number not above its own (`Registrar.RefusedIff`).
So the accepted numbers decrease while only changes under one Call-ID are accepted
(`AcceptedDecrease`); a query skips the test and still stores its number, after which they may
rise (`QueryLetsRise`). Of the q values only those that truncate to 0 or 1 hundredth pass
(`Registrar.QAccepted`). The error of the deletion in an update is overwritten by that of the
insertion, the one way to get a binding twice (`Registration.StepUniqueExactly`).

**Printing a URI forgets two things**: a fragment (sip/uri.go:812 asks the embedded URL for
it) and an empty password of an empty user. Apart from these, whatever is parsed from a text
with a scheme, with no slash behind it and no IPv6 zone in its host, is printed and parsed back
(`UriParsed.ReparseExactly`). The escaped form of a path that was set is the
text that was set, unless that is not validly encoded or is `%2A` (`UriObjects.HintKeepsText`).

**Removing from the trie dereferences null** when nothing stored is a prefix of the key, or
when the root is the leaf to prune (`PrefixTries.PrefixTrie.Remove`).

**A printed list of Via values is read back** if and only if each value is one that can be read,
quotes are closed before the next value, only the first value starts in a comma, and the last
one ends in neither a blank nor, behind others, a comma (`Vias.JoinParsedExactly`).

**A response shares the To header of its request**, so the tag of an error response stays in
the request and every later one carries the same tag (`Derivation.ErrorResponse`, `TagStays`).

**A response goes back to where its request came from** if and only if that address differs
from the sent-by part of the caller's Via, or the Via recorded no other source
(`ReturnPath.ReturnsToCaller`). A count of M allows exactly M - 1 copies, the first and all
redirections together (`ReturnPath.CopiesExactly`).

## Assumptions

- One step of the core is one handler run to its end: goroutines do not interleave inside a
  handler, and mutexes and channels are atomic. Timers are idealised; a tie is a free choice.
- Messages that reach the core have a Call-ID, CSeq, Max-Forwards, From, To and Via header.
- Branches, tags, the choice among equal targets and the order in which Go walks a map are
  parameters. Freshness of branches is stated where it is used.
- A statement on the SQL tables does what it says or fails; which ones fail is a parameter.
- q values are real numbers, so the rounding of `q * 100` in floating point does not appear.
- Strings are sequences of bytes in URIs, Via headers and parameters, and of code points in
  the trie, whose keys are taken to be valid UTF-8. Parameters are split as `url.ParseQuery`
  of Go 1.13 does, which go.mod names: at `&` and at `;`. `Userinfo.String` of net/url is
  taken to escape as the program's own copy does.

## Model

| member | source | states |
|---|---|---|
| `ResponseContexts.BindExact` | proxy_core.go:99-112 | adding a pair keeps the two maps exact inverses if and only if the client key is not bound to another server key |
| `ResponseContexts.UnbindExact` | proxy_core.go:114-137 | removing keeps them inverse, and reports the last branch exactly when no other client key has that server key |
| `ResponseContexts.ExactMeans` | proxy_core.go:78-83 | being inverse means that no stored branch set is empty and that both maps hold the same pairs |
| `ResponseContexts.SizesAgree` | proxy_core.go:78-83 | the branch sets together are as large as the map back |
| `ResponseContexts.LastReportsMatchCreations` | proxy_core.go:99-137 | over any run, a server key is reported removed as often as it was created, once less while it is present |
| `ResponseContexts.ResponseCtxs.Add` | proxy_core.go:99-112 | the two map fields become the specified index |
| `ResponseContexts.ResponseCtxs.Remove` | proxy_core.go:114-137 | the fields become the specified index; the results say whether the key was found, its server key, and whether it was the last |
| `ResponseContexts.ResponseCtxs.GetStFromCt` | proxy_core.go:85-90 | the server key of a client key, if bound |
| `ResponseContexts.ResponseCtxs.GetCtFromSt` | proxy_core.go:92-97 | all client keys of a server key, if any |
| `ProxySafety.GoodStep` | proxy_core.go:160-223 | every handler keeps the accounts balanced: each server transaction has exactly one of a final response, a lost one, or a live branch, and Timer C and pending CANCELs aim at the transaction of their branch |
| `ProxySafety.ReuseBreaks` | proxy_request_controller.go:345-366 | a request that takes over a key with a live branch unbalances the accounts, unless it panics |
| `ProxySafety.GoodExactly` | proxy_request_controller.go:250-343 | the accounts stay balanced if and only if the step is no such request, or one of the panics |
| `ProxySafety.GoodResponse` | proxy_response_controller.go:110-194 | responses of every status, redirected or not, racing or late, keep the accounts |
| `ProxySafety.GoodCancel` | proxy_request_controller.go:250-298 | a CANCEL is answered itself and leaves the branches it cancels with their transaction |
| `ProxySafety.GoodTimerC` | proxy_core.go:177-223 | a firing Timer C answers its own transaction once, or cancels, or does nothing |
| `ProxyRuns.TimerCSafe` | proxy_core.go:28-68 | from any state where both channel tables have the same keys and a closed destroy channel belongs to an unbound key, the step leads to such a state again: no channel is closed twice and nothing is sent on a closed or unread one. It halts if and only if it misses a transaction, a sent request or a channel, or prints what cannot be printed |
| `ProxyRuns.ConformingRunSafe` | proxy_request_controller.go:32-128 | every state of a conforming run is balanced, has sound timers and serves every branch, with a sent request and printable parties in the entry of its call; no handler met one of the panics of `Panics` or waits on a channel of Timer C |
| `ProxyRuns.AnsweredAtMostOnce` | proxy_response_controller.go:110-194 | in every state of a conforming run each transaction was handed provisionals and at most one final, and finals, losses and live branches add up to one |
| `ProxyRuns.FreshTimersSafe` | proxy_core.go:28-68 | with fresh keys alone, channels are never misused in any run |
| `ProxyRuns.FreshRunSafe` | proxy_core.go:160-223 | with fresh keys alone the accounts stay balanced while no key with a live branch is taken over |
| `ProxyRuns.ReuseAnswersTwice` | sip/transaction.go:633-636 | a run with fresh keys in which a destroyed transaction's key arrives again and one transaction, still in its table, gets 486 and then 200 |
| `ProxyPanics.EntryTells` | proxy_server.go:207-220 | over any run, the entry of a call is there, knows a sent request and can be printed exactly as its last INVITE was handled, forwarded and could be |
| `ProxyPanics.RedirectionPanics` | proxy_response_controller.go:8-31 | after any run with fresh keys, a 3xx panics if and only if it meets a live branch of a known call with its server transaction, and has a usable contact while the last INVITE with its Call-ID was refused, or is answered while the call to be closed cannot be printed |
| `ProxyPanics.RefusedInvitePanics` | proxy_request_controller.go:52-79 | a run of three messages with that panic |
| `ProxyPanics.FirstPanics` | proxy_request_controller.go:32-64 | an ACK at the start panics if and only if it has no hops left, its route cannot be followed or its Contact cannot be printed; an INVITE if and only if a Contact cannot be printed or going through its Route values panics |
| `Composition.ClosedMeansFinal` | sip/transaction.go:546-551 | a server transaction whose machine closed, undisturbed and fed with the first of what was handed to it, was handed a final response |
| `Composition.EndedMeansFinal` | sip/transaction.go:120-137 | a client transaction whose machine ended without an error, undisturbed, received a final response, which the core got after the key was made |
| `Composition.FinalUnbinds` | proxy_response_controller.go:110-194 | a final response on a branch of a known call takes the branch away |
| `Composition.UnboundRun` | proxy_core.go:99-137 | in a conforming run a client key whose branch is gone never has one again |
| `Composition.ComposedConforms` | sip/server.go:308-372 | a run in which transactions leave their tables by their machines, with no early ACK and no destruction from outside, conforms, and knows the call of every live branch |
| `Composition.ComposedAnswersOnce` | sip/server.go:308-372 | so each transaction of such a run is handed provisionals and at most one final response |
| `Composition.AnsweredCall` | sip/transaction.go:645-653 | an answered call whose transactions both leave is such a run |
| `CallerAnswers.HandedAlways` | proxy_response_controller.go:110-194 | whatever happens, only statuses from 101 to 699 are handed over, if those that come in are from 100 to 699 |
| `CallerAnswers.CallerGetsFinal` | sip/transaction.go:615-713 | the final response handed over for an INVITE in a conforming run, fed to its server transaction with any timers around it, is what the caller gets if and only if it comes first of all or is at most 600; otherwise the caller gets no final response |
| `CallerAnswers.DeclinedUnheard` | sip/transaction.go:699-710 | a conforming run with a 603 the caller never hears of |
| `Proxy.TimerCHandlers.Add` | proxy_core.go:55-68 | two new channels replace those of the key |
| `Proxy.TimerCHandlers.Get` | proxy_core.go:42-53 | both channels of a key or none |
| `Proxy.TimerCHandlers.Remove` | proxy_core.go:28-40 | the key leaves both tables; reports whether it was there |
| `Proxy.Proxy.InviteHandler` | proxy_request_controller.go:32-128 | prints the Contacts, replaces the entry of the call, then answers with the status of the first check that fails, or adds context, client transaction and Timer C and records the sent request; panics exactly when a Contact or a Route value breaks |
| `Proxy.Proxy.NonInviteHandler` | proxy_request_controller.go:203-224 | the same for requests inside a dialog, without entry and Timer C |
| `Proxy.Proxy.CancelHandler` | proxy_request_controller.go:250-298 | 481 without a context; otherwise 200 and a pending CANCEL for every branch, all aimed at the branch the loop ends with |
| `Proxy.Proxy.MakeErrorResponse` | proxy_request_controller.go:300-314 | the status goes to the transaction and the entry of the request's call is closed; panics exactly when that entry cannot be printed |
| `Proxy.Proxy.RequestHandler` | proxy_request_controller.go:345-397 | a request with a key in the table is refused; otherwise its handler runs in a new server transaction, and an error is answered |
| `Proxy.Proxy.AckHandler` | proxy_request_controller.go:193-201 | an ACK that no transaction takes changes nothing, or panics when it cannot be forwarded or printed |
| `Proxy.Proxy.ForwardRedirection` | proxy_response_controller.go:8-64 | panics if and only if the contact is usable and the call has no sent request, or an answer closes an entry that cannot be printed; otherwise answers 404, 483 or the routing status, or opens a new branch with its Timer C |
| `Proxy.Proxy.InviteResponseHandler` | proxy_response_controller.go:110-142 | channels, context, call entry and answer change by status as the step function says |
| `Proxy.Proxy.ResponseHandler` | proxy_response_controller.go:144-194 | ignores what has no call, context or transaction, and dispatches on the CSeq method |
| `Proxy.Proxy.ClientTransactionErrorHandler` | proxy_request_controller.go:316-343 | closes the destroy channel, removes the context and answers 408 or 500 for the last branch |
| `Proxy.Proxy.ResponseContextCloser` | proxy_core.go:160-175 | removes the context and answers only when that was the last branch |
| `Proxy.Proxy.FireTimerC` | proxy_core.go:177-223 | cancels after a provisional response, answers 408 otherwise; panics exactly when it must destroy a client transaction that is gone |
| `Proxy.Proxy.Handle` | proxy_core.go:225-235 | any one event changes the objects as one step of the state machine |
| `Proxy.Serve` | proxy_core.go:225-235 | serving any list of events ends where the run of the state machine ends; a conforming list leaves every transaction handed at most one final response |
| `ServerTransactions.InviteWire` | sip/transaction.go:553-713 | every run sends provisionals, then copies of at most one final response and nothing else (section 17.2.1 of RFC 3261) |
| `ServerTransactions.InviteForward` | sip/transaction.go:553-713 | the state never goes back, Closed is absorbing, a final response is set once and freezes the provisional one, Completed repeats it, and Confirmed and later send nothing |
| `ServerTransactions.FinalGoesOutIff` | sip/transaction.go:654-713 | a final response goes out if and only if its status is at most 699 in the first wait and at most 600 in the second |
| `ServerTransactions.ReturnedIsSilent` | sip/transaction.go:546-551 | after the controller has returned nothing is sent |
| `ServerTransactions.DeclineIsLost` | sip/transaction.go:699-710 | a 603 after the transaction's own 100 is never sent, whatever follows |
| `ServerTransactions.ClosedEarlyWhy` | sip/transaction.go:615-713 | a run that closed without a final response contains a destruction from outside or a message that is no response |
| `ServerTransactions.EarlyAckEnds` | sip/transaction.go:633-682 | an ACK in either wait before a final response closes the transaction, sends nothing, and no final response is ever sent, whatever follows |
| `ServerTransactions.CallerAnswered` | sip/transaction.go:615-713 | after timers and provisional responses only, a final response is chosen and sent if and only if it is the first event or at most 600, whatever follows |
| `ServerTransactions.LeavesAnswered` | sip/transaction.go:546-551 | a transaction of either kind that closed, not destroyed from outside and with ACKs only behind its final response, has a final response |
| `ServerTransactions.TimersAlways` | sip/transaction.go:582-613 | in every run, time used plus time left is 64·T1 while in Completed, and the interval stays within T2 |
| `ServerTransactions.TimerGHTurn` | sip/transaction.go:582-613 | a timer event resends and shortens what is left, or ends at exactly 64·T1; with T2 = 8·T1 it resends exactly ten times |
| `ServerTransactions.UnacknowledgedRun` | sip/transaction.go:582-613 | a final response nobody acknowledges is repeated ten times, however ties fall, and then the transaction ends at 64·T1 for good |
| `ServerTransactions.AtMostElevenCopies` | sip/transaction.go:582-613 | with T2 = 8·T1, no run sends a final response more than eleven times |
| `ServerTransactions.NonInviteWire` | sip/transaction.go:715-797 | every run sends its final response once, as the last message |
| `ServerTransactions.NonInviteForward` | sip/transaction.go:715-797 | state, final and provisional response only move forward |
| `ServerController.ServerTransaction.InviteController` | sip/transaction.go:615-713 | the loops end where the run of the INVITE machine on the events taken ends |
| `ServerController.ServerTransaction.InviteControllerCompleted` | sip/transaction.go:582-613 | so does the loop of Timers G and H |
| `ServerController.ServerTransaction.InviteControllerConfirmed` | sip/transaction.go:553-580 | so does the loop of Timer I |
| `ServerController.ServerTransaction.NonInviteController` | sip/transaction.go:764-797 | so do the loops of the non-INVITE machine |
| `ClientTransactions.InviteWire` | sip/transaction.go:166-194 | every run sends copies of one request, then copies of the ACK for one final response, no ACK if that is a 2xx, and reports at most one error |
| `ClientTransactions.InviteForward` | sip/transaction.go:248-375 | each step moves forward, the request is repeated in Calling alone, and the callback needs an error |
| `ClientTransactions.NeverRepeated` | sip/transaction.go:293-375 | once a 100-699 was consumed, whatever follows, the request is never sent again (section 17.1.1.2 of RFC 3261) |
| `ClientTransactions.AcksAlways` | sip/transaction.go:166-194 | every run sends exactly one ACK for each 300-699 taken: the first one if an ACK can be built, and all in Completed |
| `ClientTransactions.AcksCount` | sip/transaction.go:166-194 | helper, a case of `AcksAlways`: over any list of responses in Completed, the ACKs grow by exactly the number of 300-699 among them |
| `ClientTransactions.RepetitionAcknowledged` | sip/transaction.go:166-194 | helper of `AcksCount`: one response in Completed adds one ACK if and only if it is a 300-699 |
| `ClientTransactions.FinalConsumed` | sip/transaction.go:248-375 | a 2xx sends nothing and ends; a 300-699 is acknowledged once, or ends with an error if no ACK can be built (section 17.1.1.3 of RFC 3261) |
| `ClientTransactions.RefusalReportedIff` | sip/transaction.go:349-358 | helper, a case of `RefusalReported`: what Timer D's end reports right behind the refusal |
| `ClientTransactions.RefusalReported` | sip/transaction.go:349-358 | over any events after the refusal, the report is empty until the end, and then holds the refusal if and only if it came in Calling |
| `ClientTransactions.InviteTimersAlways` | sip/transaction.go:314-335 | in every run, after n repetitions Timer A is 2^n·T1 and Timer B (65 - 2^n)·T1, with time used plus Timer B always 64·T1 |
| `ClientTransactions.TimerABTurn` | sip/transaction.go:314-335 | the first six timer events repeat the INVITE, the seventh times out at exactly 64·T1 with one report |
| `ClientTransactions.UnansweredInvite` | sip/transaction.go:293-335 | an INVITE nobody answers is sent seven times, then reported once, then silent |
| `ClientTransactions.NonInviteWire` | sip/transaction.go:196-246 | every run sends copies of its one request; with T2 = 8·T1 and k provisionals at most 1 + 10(k + 1) |
| `ClientTransactions.NonInviteForward` | sip/transaction.go:109-164 | state and responses only move forward, nothing is sent after a final response, the callback needs an error |
| `ClientTransactions.TimerEFTurn` | sip/transaction.go:199-221 | a timer event repeats the request and shortens what is left, or times out 64·T1 after the last provisional |
| `ClientTransactions.UnansweredTicks` | sip/transaction.go:196-246 | with T2 = 8·T1, ten timer events from a fresh start repeat the request ten times, the next ends it at exactly 64·T1 with one report |
| `ClientTransactions.StretchedRequest` | sip/transaction.go:196-246 | with T2 = 8·T1, the request and k times ten timer events with a provisional, then ten more: exactly 1 + 10(k + 1) copies; one more timer event ends it 64·T1 after the last provisional |
| `ClientTransactions.CopiesExactly` | sip/transaction.go:231-236 | with T2 = 8·T1, 1 + 10(k + 1) is the greatest number of copies of any run with k provisionals, and more than eleven copies are possible if and only if k > 0 |
| `ClientTransactions.EndsAnswered` | sip/transaction.go:120-137 | a transaction of either kind that was not destroyed from outside and ends without an error has received a final response |
| `Transactions.UncappedStep` | sip/transaction.go:314-335 | Timers A and B never tie; A is first exactly six times |
| `Transactions.CappedStep` | sip/transaction.go:585-602 | Timers G and H, or E and F, never tie when T2 = 8·T1; the repetition is first exactly ten times |
| `ClientController.ClientTransaction.Controller` | sip/transaction.go:402-408 | run to its end, the controller leaves the fields where the machine goes on the events |
| `ClientController.ClientTransaction.InviteControllerCalling` | sip/transaction.go:293-375 | so does the loop of Timers A and B |
| `ClientController.ClientTransaction.InviteControllerProceeding` | sip/transaction.go:248-291 | so does the loop in Proceeding |
| `ClientController.ClientTransaction.InviteControllerCompleted` | sip/transaction.go:166-194 | so does the loop that repeats the ACK |
| `ClientController.ClientTransaction.NonInviteControllerProceeding` | sip/transaction.go:196-246 | so does the loop of Timers E and F, started afresh by provisionals |
| `ClientController.ClientTransaction.NonInviteControllerCompleted` | sip/transaction.go:139-164 | so does the loop of Timer K |
| `ClientController.RunFromAgrees` | sip/transaction.go:402-408 | taking events one by one from where a run stands leads where the whole run leads |
| `ClientController.RunClient` | sip/transaction.go:444-458 | a transaction run on any events ends where the machine's run on them ends |
| `PrefixTries.LongestIsLongest` | proxy_routing.go:81-95 | shortening the string finds the longest stored key that is a prefix, and nothing if and only if there is none |
| `PrefixTries.AddShadows` | proxy_routing.go:47-49 | a new key changes the answer exactly for the strings it is a longer prefix of, and removing it restores all answers |
| `PrefixTries.PrefixTrie.Add` | proxy_routing.go:32-49 | the trie keeps its shape, old nodes stay at their paths, and the stored table has that key set, or cleared for a nil target |
| `PrefixTries.PrefixTrie.SearchToTop` | proxy_routing.go:70-79 | the nearest node with a target on the way up holds the longest stored prefix of the path |
| `PrefixTries.PrefixTrie.Search` | proxy_routing.go:81-95 | the node of the longest stored prefix with its own key and target; null if and only if nothing stored is a prefix |
| `PrefixTries.PrefixTrie.Remove` | proxy_routing.go:51-68 | returns the stored target, takes that key alone out of the table, prunes a leaf; panics exactly when no stored key is a prefix or the root is the leaf |
| `PrefixTries.PrefixTrie.Prune` | proxy_routing.go:58-62 | unhooking a leaf without a target changes nothing that is stored |
| `PrefixTries.Translater.Run` | proxy_routing.go:32-95 | any run of additions, removals and searches answers as the plain table does, up to the first removal that panics |
| `PrefixTries.Translater.Load` | proxy_routing.go:120-167 | the rows before the first that has not three fields get in; true if and only if there is no such row |
| `Percent.EscapeRoundTrip` | sip/uri.go:201-340 | unescaping undoes escaping for every string outside host names and zones, and there if and only if every escaped byte is one that may be |
| `Percent.EscapeAppend` | sip/uri.go:286-340 | escaping works byte by byte: of a concatenation it is the concatenation |
| `Percent.EscapeString` | sip/uri.go:286-340 | both fast paths and the buffer of the counted length give the byte-by-byte definition |
| `Percent.CountEscapes` | sip/uri.go:287-301 | the counts give the exact length of the result, and zero counts mean that it is the input |
| `Percent.FillEscaped` | sip/uri.go:323-339 | a buffer of that length is filled exactly |
| `Percent.UnescapeString` | sip/uri.go:201-272 | the check and the second pass give the byte-by-byte definition, the first fault being the error |
| `Percent.CountUnescapes` | sip/uri.go:203-252 | the first fault in order, or the exact length of the result |
| `UriPrinting.HostRoundTrip` | sip/uri.go:589-638 | a printed host without a zone is read back if and only if its port is one and every byte survives escaping |
| `UriPrinting.UserRoundTrip` | sip/uri.go:567-585 | every user and password is read back, except that an empty password of an empty user is forgotten |
| `UriRoundTrip.AuthorityRoundTrip` | sip/uri.go:552-587 | user, host and parameters of a canonical URI are told apart again |
| `UriRoundTrip.CanonicalRoundTrip` | sip/uri.go:764-815 | a canonical URI is printed and parsed back if and only if it has no fragment and no empty password of an empty user |
| `UriParsed.HostParsed` | sip/uri.go:589-638 | a host that was read without a zone has a port that is one, no semicolon, and only bytes that survive escaping |
| `UriParsed.ReparseExactly` | sip/uri.go:457-471 | for every text with a scheme that is parsed, printing and parsing again gives the same URI under exactly that condition |
| `UriObjects.EscapedPathMeansPath` | sip/uri.go:672-683 | whatever hint is kept, unescaping the escaped path gives the path |
| `UriObjects.HintKeepsText` | sip/uri.go:648-683 | after a path is set, its escaped form is the text that was set if and only if that is validly encoded and not `%2A` |
| `UriObjects.URI.SetPath` | sip/uri.go:648-661 | sets path and hint with both properties, or changes nothing and returns the error |
| `UriObjects.URI.EscapedForm` | sip/uri.go:672-683 | the hint if it is a valid encoding of the path, an asterisk as it is, else the default encoding |
| `UriObjects.URI.SetFragment` | sip/uri.go:712-725 | sets fragment and hint, or changes nothing and returns the error |
| `UriObjects.URI.ToText` | sip/uri.go:764-815 | the appended parts make the printed form of the fields |
| `UriObjects.URI.Clone` | sip/uri.go:380-408 | a new object with the same fields |
| `UriObjects.GetScheme` | sip/uri.go:413-435 | the loop finds a scheme exactly when the text before the first colon is one, and its end |
| `UriObjects.IsValidEncoded` | sip/uri.go:688-709 | true if and only if every byte may stand in an encoded path |
| `UriObjects.IsValidOptionalPort` | sip/uri.go:729-742 | true if and only if the text is empty or a colon and digits |
| `UriObjects.ReadHost` | sip/uri.go:591-638 | the checks and unescapings, zones included, give the specified host or the first error |
| `UriObjects.ReadAuthority` | sip/uri.go:552-587 | user, host and parameters, or the first error |
| `UriObjects.Read` | sip/uri.go:457-549 | the object's fields are the specified parse of the text, or the error is |
| `Vias.JoinParsed` | sip/header.go:290-335 | a printed list of values that keep apart is read back, first value topmost; quoted commas do not split (section 7.3.1 of RFC 3261) |
| `Vias.JoinParsedExactly` | sip/header.go:290-335 | the values keep apart if and only if the printed list is read back |
| `Vias.ParsedRead` | sip/header.go:290-335 | whatever is read has no part that holds what ends it, and closed quotes before the next value |
| `Vias.ReprintParsed` | sip/header.go:265-335 | what was read from any text reads the same after printing if and only if its last value ends in neither a blank nor, behind others, a comma |
| `Vias.TextParsedExactly` | sip/header.go:265-335 | a single value is printed and read back if and only if its parts are such parts and something follows the protocol |
| `ViaStack.Via.ToText` | sip/header.go:265-271 | protocol, sent-by and parameters in their printed form |
| `ViaStack.ViaHeaders.Append` | sip/header.go:362-366 | the value becomes the lowest of the stack |
| `ViaStack.ViaHeaders.Insert` | sip/header.go:356-360 | the value becomes the topmost |
| `ViaStack.ViaHeaders.Get` | sip/header.go:372-378 | the value at that depth, or null outside the stack |
| `ViaStack.ViaHeaders.Pop` | sip/header.go:380-387 | takes the topmost value off, or leaves an empty stack |
| `ViaStack.ViaHeaders.WriteHeader` | sip/header.go:393-403 | one line a value, topmost first |
| `ViaStack.ViaHeaders.Clone` | sip/header.go:345-354 | an equal stack of new and distinct objects |
| `ViaStack.ParseVias` | sip/header.go:290-335 | reads the specified values below those in the stack; an index is out of range exactly when a value has no blank |
| `ViaStack.LinesParsed` | sip/message.go:645-654 | however a stack is split into printed lines, the lines read as that stack |
| `ViaStack.ReadLines` | sip/message.go:645-654 | all lines in order make one stack, or an index is out of range |
| `Params.WrittenRead` | proxy_request_controller.go:137-145 | parameters without bytes of special meaning, written in any order of their keys, read back as the same map |
| `Params.SetWrittenRead` | proxy_request_controller.go:136-146 | setting one parameter and rewriting all reads back as the old parameters with that one set, if no byte read has a meaning of its own when written as it is |
| `Params.ReadClean` | proxy_request_controller.go:137 | so it is for texts without percent, plus and ampersand signs |
| `Params.PlusIsLost` | proxy_request_controller.go:139-144 | an escaped plus sign is read as itself, written as it is and then read as a blank |
| `Params.WriteParameters` | proxy_request_controller.go:139-144 | the nested loops write every key with every value |
| `ReturnPath.CopiesExactly` | proxy_request_controller.go:130-148 | the first copy and its redirections number at most Max-Forwards - 1, as many as that can be sent, and each has one own Via above the stack that came in |
| `ReturnPath.OneOwn` | sip/transaction.go:410-425 | the last copy has one value of the proxy's own more than the request had |
| `ReturnPath.StampedBack` | proxy_request_controller.go:135-146 | the recorded source is read back beside the other parameters and decides where a response goes |
| `ReturnPath.ReturnsToCaller` | proxy_response_controller.go:66-91 | an echoed and popped stack is the caller's, with the source recorded; the response goes to the request's source if and only if that differs from sent-by or no other source was recorded |
| `ReturnPath.StampedKey` | sip/transaction.go:829-847 | recording the source leaves the server key as it was |
| `ReturnPath.OwnBranch` | sip/transaction.go:415-419 | the own Via carries the branch it was made with |
| `ReturnPath.CopyKey` | sip/transaction.go:460-480 | a copy and the responses that echo it have the client key of that branch |
| `Messages.MaxForwards.Decrement` | sip/header.go:566-573 | true if and only if hops are left; the count never falls below zero |
| `Messages.Message.Clone` | sip/message.go:85-142 | an equal message all of whose header objects are new |
| `Derivation.CancelKeys` | sip/transaction.go:460-511 | the CANCEL has the server key of its INVITE once the method is set, and another client key with the same branch (section 9.1 of RFC 3261) |
| `Derivation.GenerateCancel` | sip/message.go:767-813 | a new message with one Via, method and CSeq of a CANCEL and no body, the request untouched; each failure in its order |
| `Derivation.AckKeys` | sip/transaction.go:829-847 | the ACK has the server key of its INVITE, and no client key (section 17.1.1.3 of RFC 3261) |
| `Derivation.GenerateAck` | sip/message.go:869-906 | the ACK for 300-699 shares Request-URI, From, Max-Forwards and top Via with the request and To with the response, and has the server key of its INVITE; each failure in its order |
| `Derivation.GenerateResponse` | sip/message.go:669-700 | a response sharing the header objects of the request, with its client key |
| `Derivation.AddToTag` | sip/message.go:714-724 | a tag is put in front unless there is one |
| `Derivation.ErrorResponse` | proxy_request_controller.go:300-306 | the response carries status and tag, and the request's own To has the tag as well |
| `Derivation.TagStays` | sip/message.go:714-724 | a tag once given is read back and never replaced |
| `Forwarding.ForwardingRequest` | proxy_request_controller.go:130-148 | a copy with one hop less and the source recorded, the request untouched; each failure in its order |
| `Forwarding.InsertOwn` | sip/transaction.go:410-425 | the own Via is on top unless one with that sent-by is, and the key is that of the new stack |
| `Forwarding.Redirection` | proxy_response_controller.go:23-28 | a copy of the last request for the contact, with one hop less and without the own Via |
| `Forwarding.ForwardingResponse` | proxy_response_controller.go:66-91 | a copy without the own Via, addressed to the recorded source or the sent-by part; none if no Via is left |
| `Forwarding.InviteRouted` | proxy_request_controller.go:12-30 | 400, 416 or 404 with the message as it was, or address and URI host set to the target's; the status is the one the core is told |
| `Forwarding.SendFirst` | proxy_request_controller.go:69-101 | the first copy of an INVITE without Route: the specified stack and count, sent to the target, the proxy in front of the Record-Route values, all else as it came; or none with 483 or the routing status |
| `Forwarding.SendNext` | proxy_response_controller.go:23-44 | the copy for a redirection: the same for the contact, whose own URI object gets the target's host |
| `Registration.StepUniqueExactly` | proxy_registration.go:194-231 | an operation keeps address-of-record and binding unique if and only if it is not an update of a known binding whose deletion failed |
| `Registration.BatchUnique` | proxy_registration.go:194-231 | so does a batch without such a failure |
| `Registration.BatchOthers` | proxy_registration.go:194-231 | a batch leaves the rows of other addresses-of-record as they are |
| `Registration.BatchIsFold` | proxy_registration.go:194-231 | a batch is the fold of its operations over the map of bindings |
| `Registration.QueryAnswers` | proxy_registration.go:117-145 | the query gives exactly the unexpired rows in descending q |
| `Registration.AnswerIsMap` | proxy_registration.go:117-145 | with unique rows it gives exactly the unexpired part of the map |
| `Registration.FinalQuery` | proxy_registration.go:196-206 | a batch that ends with a query answers with what the table then holds |
| `Registrar.RegisterController.IssueTransaction` | proxy_registration.go:147-241 | all operations or none: new tables and reply are the specified ones, a failure changes nothing, others are untouched, uniqueness is kept |
| `Registrar.RegisterController.Perform` | proxy_registration.go:193-232 | the loop makes the specified batch |
| `Registrar.StoredIsLast` | proxy_registration.go:179-189 | after any series of calls of any addresses, Call-IDs and faults, what is stored for an address is Call-ID and number of its last accepted call |
| `Registrar.RefusedIff` | proxy_registration.go:165-177 | after any such series, a call without faults is accepted, or refused; refused if and only if it has more than one operation and the last accepted call of its address has its Call-ID and a number not above its own |
| `Registrar.AcceptedDecrease` | proxy_registration.go:165-177 | of two accepted calls of one address and Call-ID the later has the lower number, if all accepted in between change bindings under that Call-ID and no read of the stored number failed |
| `Registrar.QueryLetsRise` | proxy_registration.go:172-189 | a change with 5, a query with 10 and a change with 7 of one Call-ID are all accepted |
| `Registrar.QAccepted` | proxy_registration.go:260-275 | a q strictly between -0.01 and 0.02 is stored as 0 or 1 and changes nothing else; any other gives 400, whatever expiry is asked for |
| `Registrar.DeterminedSound` | proxy_registration.go:243-301 | an update that is asked for has q 0 or 1 and at least the minimum time |
| `Registrar.BatchPlausible` | proxy_registration.go:194-231 | such operations keep q at 0 or 1 in every row |
| `Registrar.Register` | proxy_registration.go:303-352 | status, tables and contacts of a REGISTER: a refused contact, header or batch changes nothing; a failure gives 500 if it speaks of a syntax error, else 400; without an address in To the transaction is rolled back and 500 is answered |
| `Routing.Candidates` | proxy_request_controller.go:402-423 | the scan that stops at the first lower q collects, in order, the targets of the rows of highest q among all that can be parsed |
| `Routing.ScannedIsChosen` | proxy_request_controller.go:402-423 | what such a scan finds in descending rows is what the highest q of all usable rows selects, if it is not negative |
| `Routing.RoutedExactly` | proxy_request_controller.go:402-423 | the candidates are exactly the unexpired parseable bindings of highest q |
| `Routing.Route` | proxy_request_controller.go:399-447 | one of the candidates, or the target of the longest stored prefix of the user or host, or none |

## Left out

- Sockets, `Serve`, byte output, logging, the handler mux, reading CSV files, main and the sample programs: input and output. What is sent is a field or a result.
- Goroutines interleaving inside a handler, wall-clock time, mutexes: a handler is one step.
- sip/reader.go and the reading of a message from the wire: a copied text reader; only the Via lines of a parsed header are modelled.
- proxy_auth.go, what else a call record holds, CSeq arithmetic, getters: easy members only.
- Retransmitted requests (sip/transaction.go:526-544): the handler writes while it holds the same mutex, so the case does not come back, and that transaction takes no message any more.
- Requests without Max-Forwards or Via are dereferences of null in `Derivation` and `Forwarding`; the core takes both as given.
- Rewriting of Route headers (proxy_request_controller.go:150-191): whether it succeeds, fails or panics is part of an event; a shadowed variable keeps its strict branch from running.
- The ACK for a 2xx response (sip/message.go:824-868).
- A call's entry is reduced to whether a request sent for it is recorded, whether it is closed, and whether its From and To can be printed; the CANCEL's own client transaction to its failure. When an entry is forgotten is an event.
- Which values can be printed is part of an event: `Contact: <sip:>` and the like, not the printing itself.
- Messages written on the wire by a transaction (sip/message.go:228-280) print their Contact as well, in a goroutine of their own.
- A controller that is destroyed from outside sees two closed channels (sip/transaction.go:109-118); the model takes the one made for it. In Proceeding the other one would have it close a channel twice (sip/transaction.go:257-261), which is why a conforming run takes a CANCEL to be possible.
- The write of a message to a server transaction whose controller has returned without closing it (sip/transaction.go:706-709) waits for ever; in the core it is a step.
- Contact headers, reason phrase, protocol version and context of a message, and the embedded `url.URL` of a URI.
- `net/url` on texts with a leading slash behind the scheme: the model stops there with an error of its own.
- The set that `GetCtFromSt` returns is shared with the index in the program and copied here; `AddClientTransaction` does not fail.
- Holding a node of the trie over a later change: nodes are reached from the root only.
- Messages.Message.Clone: the address inside To and From is a value here, so that its own new objects do not appear.
- UriParsed.ReparseExactly: takes texts with a scheme and hosts without an IPv6 zone; without a scheme the printed text may show one.
- UriPrinting.HostRoundTrip: takes hosts without an IPv6 zone.
- ReturnPath.ReturnsToCaller: takes a caller's Via that is not the proxy's own and parameters without bytes that have a meaning when written as they are (`Params.PlusIsLost` shows one that has), and a response that echoes the stack.
- ViaStack.ParseVias: what an index out of range leaves in the stack is not said.
- Routing.Route: whether a binding can be parsed is a parameter.
