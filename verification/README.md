# Bearerbox models

Dafny models of the parts of the Kamex bearerbox that keep messages from being lost, doubled or
garbled, with proofs of what those parts promise. The bearerbox stands between SMS centres and
smsboxes. It cuts long messages and joins incoming parts, folds the results of parts into one
outcome, picks a connection for each message, keeps a file of unacknowledged messages, feeds
smsboxes through a window, prints and reads meta-data, and matches delivery reports.

Everything is stated for all inputs, all runs or all reachable states. Where the code does not do
what its own comments or its purpose suggest, the model follows the code, a lemma shows the input
or the run (or that every input is affected), and a lemma states exactly when the code does meet
the property.

## Modules

| file | what it models |
|---|---|
| Octets, Messages, DlrFlags | octet strings, the message types, the report bit masks |
| Udh | adding and finding the concatenation element of a user data header (section 9.2.3.24.1 of 3GPP TS 23.040) |
| SmsSplit | cutting a message into parts |
| Slots, Reassembly, PendingRuns, RoundTrip | the table of incoming parts, its life over whole runs, and the law that joining undoes cutting |
| SplitResults | part results folded into one outcome |
| Routing, Restart | choosing a connection, graceful restart |
| MsgPack, StoreFile, TornFrames, StoreRuns | the wire form of messages, the framed log, logs cut off anywhere, the store with dumps, crashes and starts |
| BoxWindow | the two threads that serve one smsbox |
| UrlCode, MetaData, MetaDataOps | percent-encoding, the meta-data printer and parser, get, set and merge |
| Dlr, NumHash | the delivery report waiting list, the number hash |

Objects that the code updates in place are classes (`ConcatTable`, `StoreFileDb`, `SplitParts`,
`WaitingList`, `Numhash`); loops are methods with invariants. Each is proved equal to a
specification function, and the promises are lemmas about that function. Threads are state
machines whose events are single statements on shared data or critical sections, in any order.

## Main results

- Cutting, then joining. `RoundTrip.SplitThenJoin`: for every message cut with concatenation and
  without decoration into at most 255 parts, at split characters or not, the parts may arrive in any
  order, repeated, mixed with any traffic of other messages; nothing is handed on until the last
  missing part arrives, and that gives the original header, and the original text if and only if
  the cutting itself lost nothing. `SmsSplit.LosslessIff` says exactly when that is, for every coding,
  limit, suffix and set of split characters; `RoundTrip.SentMessageRejoins` applies it to smscconn_send.
- The pending table. `PendingRuns.ReachableGood` and `PendingRuns.PartsConserved`: over all
  interleavings of arrivals, store failures, time-out flushes, re-inserts and merges the entries
  keep their shape, and every part accepted is in the table, in the hands of a flushing thread,
  passed on, acknowledged because it was joined or doubled, or given up, counted with multiplicity.
  Parts are given up exactly by a flush whose connection is gone: `PendingRuns.FinishDrops`,
  `PendingRuns.NothingDropped`.
- The store. Runs are any sequence of saves, acknowledgements, dumps, crashes at any moment of a dump or
  inside the writing of a frame, starts, and starts that crash in turn. `StoreRuns.StoreLaw`: from a
  fresh store, after every careful run, the file that a start would choose gives back a message if and
  only if the last word about it was a save. Careful means two things: a start is stopped in its dump
  only with the store file in place or nothing stored, and no crash leaves one to three octets of a
  frame. `StoreRuns.CarefulIff`: that is exactly what every single step needs. `StoreRuns.CrashSafeIff`
  covers every stopping point of a dump, `TornFrames.TornLog` and `TornFrames.EveryCut` every cut of a log.
- The window. `BoxWindow.EachMessageInOnePlace`, `BoxWindow.SemaphoreCountsWindow`,
  `BoxWindow.JoinReturnsInRun`.
- The outcome of a split message. `SplitResults.OneOutcome`, `SplitResults.OutcomeMeaning`,
  `SplitResults.CutOutcomeIff`, `SplitResults.FatesIff`, `SplitResults.PutBackIff`.
- Room. `SmsSplit.PartFits` and `SmsSplit.PartFits7`: when a part with its final header fits, for every
  text and decoration; `SmsSplit.AllFit7Iff` and `SmsSplit.WholePartsIff` on the arguments alone.
- Round trips of `MsgPack`, `UrlCode`, `MetaData` and `Udh`, with the exact ranges.
- Routing against a definition that does not mention the walk, `Routing.RightChoice`; restart as an
  order-free condition on old connections and new groups, `Restart.KeptIff` and `Restart.RestartTwice`.
- Reports over whole runs, `Dlr.LifeCycle`; the hash table against a set, `NumHash.FoundIffInserted`.

## Where the code and its purpose part ways

- A merge after a failed flush moves parts into the newer entry without raising its count
  (gw/bb_smscconn.c:2194-2201), so a message whose slots are all filled is not joined.
  `PendingRuns.MergeStrandsMessage` is the run, `PendingRuns.CompletesIff` the exact condition.
- When the joined message cannot be stored, its last part stays in the table and the centre is told to
  send it again (gw/bb_smscconn.c:612-615); the part sent again is then thrown away as a duplicate
  (gw/bb_smscconn.c:2287-2295) and the message is not joined: `PendingRuns.StoreFailureStays`,
  `PendingRuns.CompleteNeverJoins`.
- A flush that does not find its connection acknowledges and drops the parts it holds
  (gw/bb_smscconn.c:2146-2178): `PendingRuns.FinishDrops`.
- The joined message is saved before its header is fixed (gw/bb_smscconn.c:2320-2331), so the stored
  copy still has the header of part 1: `PendingRuns.JoinedIsWhole`.
- A suffix shortens the text of each cut, but the test for the last part does not count it
  (gw/sms.c:363-368), so text can be dropped: `SmsSplit.SuffixLosesText`, `SmsSplit.LosslessIff`.
- With an undefined coding that test counts octets and the cut septets (gw/sms.c:189, 253-305), so text
  can be dropped too: `SmsSplit.UndefinedCodingLosesText`.
- Without a maximum number of parts the loop never ends when a character that has to be cut off is
  wider than a part: `SmsSplit.LoopsForEver`, with the exact condition in `SmsSplit.LoopEndsIff`.
- A full 7-bit part has room for its fill bits only for some header lengths: `SmsSplit.FillBitOverflows`,
  `SmsSplit.FullPartFits7Iff`. At 140 octets it always has: `SmsSplit.FillBitsFree`.
- The limit counts escaped characters in a header, footer or suffix as one septet. A part may then be too
  long: `SmsSplit.EscapedHeaderOverflows`. How much slack makes up for it is `SmsSplit.PartFits7`; for text
  without escaped or split characters the exact condition on the arguments is `SmsSplit.AllFit7Iff`.
- The cut of UCS-2 text counts octets (gw/sms.c:254-262), so an odd room cuts a character in two:
  `SmsSplit.CharacterCutInTwo`, with the exact condition in `SmsSplit.WholePartsIff`.
- More than 255 parts or a reference beyond one octet do not survive the header: `Udh.OutOfRange`,
  `Udh.ExtractInvertsAdd`.
- When a load had to fall back on the `.new` or `.bak` file, the dump that follows overwrites or
  outranks the only copy with a file still being written (gw/bb_store_file.c:189-205), so stopping in
  the middle loses messages: `StoreRuns.CrashSafeIff`. Two crashes are enough to get there from any
  healthy store: `StoreRuns.TwoCrashesLose`. The exact condition on a run's steps is `StoreRuns.CarefulIff`.
- One to three stray octets at the end of the log stop the load loop from advancing: `StoreFile.StrayOctetsHang`.
- The length of a packed text is not checked against the packet (gw/msg.c:323-326). A message that was cut
  off inside its meta-data is therefore loaded with what is left of them; cut off anywhere else it is
  skipped: `TornFrames.TornUnpack`, `TornFrames.TornLog`.
- When part of a split was sent and all results came in before the count was corrected
  (gw/smscconn.c:705-706), no outcome is reported: `SplitResults.OutcomeLost`; exactly then:
  `SplitResults.CutOutcomeIff`.
- On a partial send smscconn_send returns a failure, and its caller routes the original again
  (gw/bb_smscconn.c:1955-1956) although parts are out and will be reported: `SplitResults.TwoFates`, with
  the exact conditions in `SplitResults.FailsWithPartsOutIff` and `SplitResults.FatesIff`.
- An outcome of "shutting down" is not the end of the original, which goes back into the queue
  (gw/bb_smscconn.c:360-362): `SplitResults.PutBackIff`.
- A retry limit of zero is meant as a single shot (gw/bb_smscconn.c:226-229), but a part whose retry count
  was never set is still sent once more: `SplitResults.SurvivesIs`.
- A warning says the deny list is ignored when an allow list is set (gw/smscconn.c:368-370); the code
  still applies it (gw/smscconn.c:580-589): `Routing.DenyListApplied`, `Routing.DenyListIgnoredIff`.
- By its comment the third check of a restart marks the connections that share the smsc-id of an
  added group for removal; its test is inverted (gw/bb_smscconn.c:1635-1638) and it marks none. A kept
  connection with that smsc-id therefore goes on running: `Restart.SameIdKept`. The two readings agree
  if and only if no connection that stays shares its smsc-id with a group that matches none:
  `Restart.InvertedTestIff`.
- By their comments both checksums leave out the number of instances (gw/smscconn.c:235-242); they do not.
  That is why a second restart changes nothing: `Restart.RestartTwice`.
- Of several groups that share the connection part of their checksum the last one's routing replaces
  the others': `Restart.RoutingLost`, `Restart.LastInForce`, `Restart.InForceIff`.
- A report looks an entry up and removes one under two separate locks (gw/dlr_mem.c:148-191); two reports
  handled at once can remove another message's entry: `Dlr.OtherEntryRemoved`, `Dlr.OwnEntryRemovedIff`.
- add_item reports a duplicate number, but its caller ignores that and the node stays used up
  (gw/numhash.c:158-165): `NumHash.DuplicateUsesNode`, `NumHash.Numhash.AddNumber`.

## Model

| member | source | states |
|---|---|---|
| `Udh.ParseConcat` | gw/bb_smscconn.c:2233-2260 | the header scan in place yields what the specification of the concatenation element says |
| `Udh.ScanSkipsPlain` | gw/bb_smscconn.c:2233-2237 | the scan walks over any well-formed elements other than 0 and 8 to the element behind them |
| `Udh.ScanFindsAdded` | gw/bb_smscconn.c:2233-2239 | in a header with an added element the scan stops exactly there |
| `Udh.CutRestores` | gw/bb_smscconn.c:2254-2260 | removing that element gives the header before it, length octet included |
| `Udh.DecodeAdded` | gw/bb_smscconn.c:2241-2252 | reference, total and part come back modulo 256, or nothing if the part is out of range |
| `Udh.ExtractInvertsAdd` | gw/sms.c:224-244 | extraction inverts the added element if and only if total and reference fit an octet |
| `Udh.OutOfRange` | gw/sms.c:224-244 | 256 parts, or reference 256, do not come back |
| `SmsSplit.ExtractPart` | gw/sms.c:247-306 | the text is cut at the length that fits, backed up to a split character, and nothing between the cut and the rest is lost |
| `SmsSplit.CutStuckIff` | gw/sms.c:247-306 | a cut takes nothing if and only if the text is empty or its first character is wider than the room |
| `SmsSplit.AdvancesIff` | gw/sms.c:349-380 | one cut keeps the condition under which the loop ends, and gets on under it |
| `SmsSplit.LoopEndsIff` | gw/sms.c:349-380 | without a maximum the loop comes to its end if and only if no character to be cut off is wider than a part |
| `SmsSplit.LoopsForEver` | gw/sms.c:349-380 | a text and room with which it never ends |
| `SmsSplit.CutParts` | gw/sms.c:344-383 | the first loop gives the undecorated parts, one per cut, the last flag where the loop ends |
| `SmsSplit.AddHeaders` | gw/sms.c:384-389 | the second loop gives part m of n the element m of n |
| `SmsSplit.SmsSplit` | gw/sms.c:309-392 | the whole operation equals its specification |
| `SmsSplit.ChunksArePrefix` | gw/sms.c:309-392 | the part texts joined are a prefix of the text: nothing is reordered, repeated or invented |
| `SmsSplit.LosslessIff` | gw/sms.c:349-380 | for every coding, limit and set of split characters they are the whole text if and only if the loop ends, enough parts are allowed and the rest fits the last, shortened cut |
| `SmsSplit.UncutIff` | gw/sms.c:309-392 | the same for a message and the arguments of sms_split |
| `SmsSplit.ChunkCount` | gw/sms.c:349-382 | as many parts as cuts are needed and one more, unless cut off |
| `SmsSplit.LosslessFlat` | gw/sms.c:349-380 | the condition in lengths alone, for text without escaped or split characters |
| `SmsSplit.SuffixLosesText` | gw/sms.c:363-368 | ten octets that lose text to a suffix of two |
| `SmsSplit.UndefinedCodingLosesText` | gw/sms.c:180-197 | two escaped characters lost with an undefined coding |
| `SmsSplit.FlatCutsClosed` | gw/sms.c:349-380 | the number of cuts as a quotient of lengths |
| `SmsSplit.LosslessWithoutSuffix` | gw/sms.c:349-380 | with a defined coding and no suffix only the number of parts limits the text |
| `SmsSplit.SendLossless` | gw/smscconn.c:667-669 | as smscconn_send calls it, a message is sent whole if and only if the loop ends and 254 cuts are enough |
| `SmsSplit.SendLosslessFlat` | gw/smscconn.c:667-669 | in closed form, without escaped characters: up to 255 full parts |
| `SmsSplit.ChunkSizes` | gw/sms.c:247-306 | no part text is over the limit, escape characters counted twice |
| `SmsSplit.PartsWithinMax` | gw/sms.c:349-382 | at least one part and at most max_messages |
| `SmsSplit.LimitCoversHeader` | gw/sms.c:320-342 | the limit assumes the header that the parts really get |
| `SmsSplit.PartShape` | gw/sms.c:349-389 | a part is header, text, footer and suffix, with the final header length |
| `SmsSplit.PartUnits` | gw/sms.c:349-389 | a part takes up its text and its decoration, and the text is within the limit less the suffix |
| `SmsSplit.PartWithinLimit` | gw/sms.c:309-392 | with a decoration of one unit a character every part is within the room left by its header |
| `SmsSplit.PartFits` | gw/sms.c:309-392 | an 8-bit or UCS-2 part with its final header fits max_octets if and only if the limit was not clipped at zero |
| `SmsSplit.SinglePartFits` | gw/sms.c:309-392 | a message that stays whole fits too |
| `SmsSplit.FillBitsFitIff` | gw/sms.c:320-342 | a full 7-bit part has room for its fill bits if and only if the remainders modulo seven allow it |
| `SmsSplit.SeptetsFitIff` | gw/sms.c:320-342 | how many septets fit behind a header, without and with its fill bits |
| `SmsSplit.PartFits7` | gw/sms.c:309-392 | for every text and decoration, a 7-bit part fits in bits, without and with its fill bits, if and only if text, suffix and the excess of the escaped decoration fit the room |
| `SmsSplit.FlatDecorationFits7` | gw/sms.c:309-392 | it fits whenever the decoration has no escaped characters, with its fill bits if a full part has room for them |
| `SmsSplit.FillBitOverflows` | gw/sms.c:320-342 | a message whose first part is one bit too long |
| `SmsSplit.EscapedHeaderOverflows` | gw/sms.c:320-342 | a message that an escaped character in the header makes too long |
| `SmsSplit.FullMessageFits7` | gw/sms.h:129 | at 140 octets header, fill bits and septets fit, whatever the text and the split characters, with such a decoration |
| `SmsSplit.FillBitsFree` | gw/sms.h:129 | at 140 octets a part fits with its fill bits if and only if it fits without, whatever the decoration |
| `SmsSplit.FullPartFits7Iff` | gw/sms.c:309-392 | with text of one septet a character, a part before the last fits if and only if the decoration has no escaped characters, and with fill bits if and only if a full part also has room for them |
| `SmsSplit.AllFit7Iff` | gw/sms.c:309-392 | the same for all parts of a message together, on the arguments alone |
| `SmsSplit.WholeCharactersIff` | gw/sms.c:247-264 | UCS-2 text is cut into whole characters if and only if the room is even or the text fits one cut |
| `SmsSplit.WholePartsIff` | gw/sms.c:309-392 | the same for a message and the arguments of sms_split |
| `SmsSplit.CharacterCutInTwo` | gw/sms.c:247-264 | two characters, of which the second is cut |
| `SmsSplit.ReportsAndIds` | gw/sms.c:349-380 | only the first part asks for a report, only the last keeps the identifier, addresses stay |
| `Slots.Merge` | gw/bb_smscconn.c:2194-2201 | the loop moves exactly the parts whose slot is free |
| `Slots.MergeConserves` | gw/bb_smscconn.c:2194-2201 | every part is in one of the two rows afterwards, as often as before |
| `Slots.MergeCounts` | gw/bb_smscconn.c:2194-2201 | the filled slots of both rows add up as before |
| `Slots.FilledBound` | gw/bb_smscconn.c:2303-2307 | a row is complete if and only if its filled slots equal its length |
| `Reassembly.SlotOf` | gw/bb_smscconn.c:2226-2267 | a message with a valid element belongs to its key at an index within the total |
| `Reassembly.ConcatTable.CheckAndHandle` | gw/bb_smscconn.c:2218-2343 | updates the table as specified and keeps its shape |
| `Reassembly.ConcatTable.AddPart` | gw/bb_smscconn.c:2267-2343 | enters a part: new entry, duplicate, pending, store failure or joined |
| `Reassembly.ConcatTable.JoinParts` | gw/bb_smscconn.c:2309-2317 | the append loop gives all texts in order |
| `Reassembly.ConcatTable.Restore` | gw/bb_smscconn.c:2178-2208 | puts an entry back, merging into a newer one |
| `Reassembly.ArriveKeepsGood` | gw/bb_smscconn.c:2267-2343 | slots match the key's total and the count never exceeds the filled slots |
| `Reassembly.ArriveKeepsInPlace` | gw/bb_smscconn.c:2287-2301 | every stored part sits in its own slot under its own key |
| `Reassembly.DeclaredComplete` | gw/bb_smscconn.c:2303-2317 | an entry declared complete has every slot filled |
| `Reassembly.MismatchUnreachable` | gw/bb_smscconn.c:2184-2193 | the branch for differing totals cannot be reached |
| `Reassembly.PutBackKeepsGood` | gw/bb_smscconn.c:2178-2208 | re-inserting and merging keep the shape of the table |
| `Reassembly.PutBackKeepsInPlace` | gw/bb_smscconn.c:2194-2206 | and keep every part in its slot |
| `Reassembly.MergeGains` | gw/bb_smscconn.c:2194-2201 | how many slots a merge fills, none of which is counted |
| `PendingRuns.StepKeepsGood` | gw/bb_smscconn.c:2115-2343 | every step keeps the invariant of table and flushing threads |
| `PendingRuns.ReachableGood` | gw/bb_smscconn.c:2115-2343 | it holds in every reachable state |
| `PendingRuns.ArriveConserves` | gw/bb_smscconn.c:2267-2343 | an arriving part is in the table or acknowledged or joined, never both |
| `PendingRuns.SendConserves` | gw/bb_smscconn.c:2154-2174 | a flushed part is passed on or still held |
| `PendingRuns.FinishConserves` | gw/bb_smscconn.c:2178-2208 | the end of a flush gives up, acknowledges or returns what is held |
| `PendingRuns.PartsConserved` | gw/bb_smscconn.c:2115-2343 | over every run parts in equal parts held, passed on, acknowledged as joined or doubled, and given up |
| `PendingRuns.FinishDrops` | gw/bb_smscconn.c:2146-2178 | a flush gives up exactly the parts of an entry whose connection is gone; otherwise it ends with none left or puts the entry back |
| `PendingRuns.NothingDropped` | gw/bb_smscconn.c:2115-2343 | over every run in which flushes find their connections no part is given up |
| `PendingRuns.CompletesIff` | gw/bb_smscconn.c:2297-2307 | an arrival completes a message if and only if every slot is then filled and none of them is uncounted |
| `PendingRuns.JoinedIsWhole` | gw/bb_smscconn.c:2309-2336 | a joined message is all its own parts in order with the restored header, the saved copy has part 1's header, only that entry leaves the table |
| `PendingRuns.UncountedNeverCompletes` | gw/bb_smscconn.c:2287-2307 | with uncounted slots no arrivals whatever complete the entry |
| `PendingRuns.StoreFailureStays` | gw/bb_smscconn.c:2319-2325 | a message that could not be stored stays in the table complete, nothing acknowledged |
| `PendingRuns.AnsweredAsDuplicate` | gw/bb_smscconn.c:2287-2295 | a part for a complete entry is acknowledged, thrown away and changes nothing |
| `PendingRuns.CompleteNeverJoins` | gw/bb_smscconn.c:2287-2307 | no arrivals whatever join or change a complete entry |
| `PendingRuns.PutBackDeficit` | gw/bb_smscconn.c:2194-2206 | uncounted slots grow by exactly what merges move |
| `PendingRuns.MergeStrandsMessage` | gw/bb_smscconn.c:2137-2205 | a run that fills both slots and never joins |
| `RoundTrip.ForeignKeepsTrack` | gw/bb_smscconn.c:2267-2283 | steps for other keys leave an entry alone |
| `RoundTrip.NewPartTracked` | gw/bb_smscconn.c:2296-2307 | a new part is added and the message stays pending |
| `RoundTrip.RepeatKeepsTrack` | gw/bb_smscconn.c:2287-2295 | a repeated part changes nothing |
| `RoundTrip.LastPartJoins` | gw/bb_smscconn.c:2303-2342 | the last missing part gives the joined text and leaves no entry |
| `RoundTrip.JoinsInAnyOrder` | gw/bb_smscconn.c:2218-2343 | any order, repeats and foreign traffic: pending until the last part, then the whole message |
| `RoundTrip.SplitGivesPartSet` | gw/sms.c:309-392 | the parts of a cut message name one key, each its own slot |
| `RoundTrip.PartSetJoins` | gw/bb_smscconn.c:2218-2343 | the same from the set of delivered parts alone |
| `RoundTrip.SplitThenJoin` | gw/sms.c:309-392 | in any order of arrival the join gives the header and the cut texts, and the original text if and only if the cutting lost nothing |
| `RoundTrip.SentMessageRejoins` | gw/smscconn.c:667-669 | every message that smscconn_send cuts at most 254 times is of that kind |
| `SplitResults.FoldMeaning` | gw/bb_smscconn.c:241-255 | the folded status is success only if all succeeded and a hard failure if some part had one |
| `SplitResults.SplitParts.OnResult` | gw/bb_smscconn.c:209-278 | one result: retry, discard after the retry limit, or finish, updated in place as specified |
| `SplitResults.SplitParts.SendAll` | gw/smscconn.c:680-711 | the sending loop with its two ways to stop |
| `SplitResults.NextKeeps` | gw/bb_smscconn.c:209-278 | count, status and reported outcome stay in step with the parts |
| `SplitResults.OneOutcome` | gw/bb_smscconn.c:263-277 | never two reported outcomes, none before all parts are finished; a settled run has one if and only if all parts were sent or a part finished after the count was corrected |
| `SplitResults.CutOutcomeIff` | gw/smscconn.c:701-708 | after a cut at part i there is an outcome if and only if not all parts before i had finished when the count was corrected |
| `SplitResults.FatesIff` | gw/bb_smscconn.c:1953-1956 | the original has one fate in every settled run, and two exactly after a cut with results still to come |
| `SplitResults.TwoFates` | gw/bb_smscconn.c:1953-1956 | a run in which the original is reported and routed again |
| `SplitResults.FailsWithPartsOutIff` | gw/smscconn.c:689-710 | the loop fails with parts out if and only if the first part is taken and a later one refused |
| `SplitResults.OutcomeMeaning` | gw/bb_smscconn.c:241-277 | success if and only if every part succeeded; a hard reason whenever some part had one |
| `SplitResults.PutBackIff` | gw/bb_smscconn.c:329-362 | the outcome puts the original back into the queue if and only if nothing failed for good, the loop was not cut short and the first failure was the shutdown; it is never a temporary failure |
| `SplitResults.FoldIsFirst` | gw/bb_smscconn.c:241-255 | without a hard failure the first failure is the status |
| `SplitResults.AgainOrDiscarded` | gw/bb_smscconn.c:217-240 | a temporary failure on an active link sends the part again until its retries are used up |
| `SplitResults.SurvivesIs` | gw/bb_smscconn.c:226-237 | how many retries a part has, from any retry count of the original and any limit |
| `SplitResults.OutcomeLost` | gw/smscconn.c:701-708 | a run with no outcome at all |
| `SplitResults.SendLoopMeaning` | gw/smscconn.c:689-710 | undisturbed, the loop sends up to the first refusal and leaves the right count |
| `MsgPack.DecodeInvertsEncode` | gwlib/utils.c:933-943 | network integers come back if and only if they are signed 32-bit |
| `MsgPack.UuidTextInverts` | gwlib/gw_uuid.c:475-512 | reading the printed identifier gives it back |
| `MsgPack.ParseFieldAt` | gw/msg.c:267-351 | a parse reads back a field and consumes exactly what its append wrote |
| `MsgPack.ParseFieldsAt` | gw/msg.c:206-248 | the same for a field list anywhere in the data |
| `MsgPack.WrapFieldsIff` | gw/msg.c:267-309 | fields are unchanged if and only if their integers fit |
| `MsgPack.UnpackReads` | gw/msg.c:206-248 | unpacking reads one message off the front whatever follows |
| `MsgPack.UnpackInvertsPack` | gw/msg.c:181-248 | every field comes back, absent apart from empty, dropping split_parts, if and only if the integers fit |
| `MsgPack.MsgPack` | gw/msg.c:181-204 | the appending loop equals the specification |
| `MsgPack.MsgUnpack` | gw/msg.c:206-248 | the cursor loop equals the specification on every input, failures included |
| `StoreFile.ReadFrame` | gw/bb_store_file.c:102-143 | a written frame is read back and the cursor moves past it |
| `StoreFile.ReplayLog` | gw/bb_store_file.c:423-443 | any concatenation of frames acts as the sequence of messages |
| `StoreFile.HoldingReplays` | gw/bb_store_file.c:423-443 | a log that holds a dictionary replays to it |
| `StoreFile.HoldingAppend` | gw/bb_store_file.c:293-330 | appending a frame applies its message |
| `StoreFile.DumpHolds` | gw/bb_store_file.c:176-206 | a dump in any key order holds the dictionary |
| `StoreFile.StrayOctetsHang` | gw/bb_store_file.c:118-143 | with fewer than four octets behind the last frame the load hangs if and only if there are any |
| `TornFrames.TornFields` | gw/msg.c:267-329 | a packed field list cut off anywhere is refused, except inside the text of its last field |
| `TornFrames.TornUnpack` | gw/msg.c:206-248 | a packet cut off anywhere is refused, except inside its meta-data, which come back shorter |
| `TornFrames.TornRead` | gw/bb_store_file.c:118-143 | reading such a frame at the end of the log |
| `TornFrames.TornLog` | gw/bb_store_file.c:423-443 | what a log that ends anywhere in a frame replays to: a hang on one to three octets, else the whole frames and the cut message if and only if the cut is inside its meta-data |
| `TornFrames.EveryCut` | gw/bb_store_file.c:102-115 | every cut of a log is of that kind |
| `StoreRuns.CrashSafe` | gw/bb_store_file.c:158-206 | at every stopping point of a dump the preferred file holds the dictionary |
| `StoreRuns.CrashSafeIff` | gw/bb_store_file.c:158-206 | that is so if and only if the main file existed or nothing was stored |
| `StoreRuns.SaveKeeps` | gw/bb_store_file.c:332-353 | a save keeps log and dictionary in step |
| `StoreRuns.AckKeeps` | gw/bb_store_file.c:356-380 | so does an acknowledgement |
| `StoreRuns.LoadCrashKeeps` | gw/bb_store_file.c:383-479 | a start that is stopped in its dump, begun with the store file in place or nothing stored, loses nothing |
| `StoreRuns.TwoCrashesLose` | gw/bb_store_file.c:158-206 | from every healthy store there is a run of two crashes after which a start loads nothing |
| `StoreRuns.CrashKeeps` | gw/bb_store_file.c:158-206 | after a crash at any moment of a dump the file chosen reads as what was outstanding |
| `StoreRuns.TornKeeps` | gw/bb_store_file.c:102-115 | after a crash inside the writing of a frame it does too, with the message being written as far as it survived |
| `StoreRuns.LoadKeeps` | gw/bb_store_file.c:383-479 | a start from such a file brings log and dictionary back in step |
| `StoreRuns.CarefulIff` | gw/bb_store_file.c:102-479 | whatever a step leads to reads as what is outstanding if and only if the step is careful |
| `StoreRuns.RunKeeps` | gw/bb_store_file.c:332-479 | over every run in which no start is stopped in its dump without the store file or an empty store, and no crash leaves one to three octets of a frame, the file chosen reads as what is outstanding |
| `StoreRuns.OutstandingIff` | gw/bb_store_file.c:293-330 | a message is outstanding if and only if its last word was a save, and then as saved there |
| `StoreRuns.StoreLaw` | gw/bb_store_file.c:332-479 | from a fresh store, after every such run, up or down, the file chosen gives back a message if and only if its last word was a save, as saved there |
| `StoreRuns.StoreFileDb.SaveSms` | gw/bb_store_file.c:332-353 | saving in place, fresh identifier and time included |
| `StoreRuns.StoreFileDb.SaveAckOf` | gw/bb_store_file.c:356-380 | acknowledging in place |
| `StoreRuns.StoreFileDb.DoDump` | gw/bb_store_file.c:176-206 | writing and renaming leave the files in step |
| `StoreRuns.StoreFileDb.Load` | gw/bb_store_file.c:383-479 | a start: reads the preferred file, hands every message on once and dumps |
| `BoxWindow.NextKeeps` | gw/bb_boxc.c:464-561 | every statement of either thread on the shared window keeps the invariant |
| `BoxWindow.EachMessageInOnePlace` | gw/bb_boxc.c:344-353 | a given message is in exactly one of queue, window or a thread's hand, requeue, acknowledged; after teardown in one of the last two |
| `BoxWindow.SemaphoreCountsWindow` | gw/bb_boxc.c:464-510 | semaphore plus window is the maximum, one more between storing and lowering, one less for each thread between removing and raising |
| `BoxWindow.JoinReturns` | gw/bb_boxc.c:696-707 | although count and raise are separate, once the receiver waits for the sender every statement of the sender brings its end closer |
| `BoxWindow.JoinReturnsInRun` | gw/bb_boxc.c:696-707 | in every run from there the sender has exited once it had as many turns as statements left, whatever else happens |
| `BoxWindow.JoinReturnsAfter` | gw/bb_boxc.c:696-707 | from the start of the box that is at most eight turns |
| `Routing.DenyListIgnoredIff` | gw/smscconn.c:580-589 | with an allow list the deny list has no effect on any message if and only if no id is on both |
| `Routing.DenyListApplied` | gw/smscconn.c:580-589 | an id on both lists is refused |
| `Routing.RotatedCovers` | gw/bb_smscconn.c:1872-1876 | from any start every connection is met exactly once |
| `Routing.LookMeans` | gw/bb_smscconn.c:1881-1909 | one round keeps the meaning of the loop variables |
| `Routing.WalkList` | gw/bb_smscconn.c:1874-1910 | the loop finds least-loaded candidates and the queue total |
| `Routing.Rout` | gw/bb_smscconn.c:1849-1951 | the choice and every other outcome, said without the walk or its start |
| `Restart.TurnsMeaning` | gw/bb_smscconn.c:1596-1644 | what the matching loop has done, although matches rewrite checksums |
| `Restart.KeptIff` | gw/bb_smscconn.c:1596-1624 | a connection is kept if and only if its group is still configured or its connection part is taken over |
| `Restart.AddedAreNew` | gw/bb_smscconn.c:1630-1643 | exactly the groups that match no old connection are started, in order |
| `Restart.RestartedCovered` | gw/bb_smscconn.c:1593-1719 | every connection afterwards follows a configured group |
| `Restart.RestartedServes` | gw/bb_smscconn.c:1593-1719 | every group is served afterwards |
| `Restart.RestartTwice` | gw/bb_smscconn.c:1567-1719 | a second restart with the same groups stops and starts nothing; with instances in both checksums, as computed, it changes nothing |
| `Restart.InForceIff` | gw/smscconn.c:757-811 | every group of a running connection part is in force afterwards if and only if none of them was newly applied or there is only one |
| `Restart.LastInForce` | gw/bb_smscconn.c:1610-1624 | otherwise the last configured group with that part is in force on all its connections |
| `Restart.RoutingLost` | gw/bb_smscconn.c:1610-1624 | two new routings for one connection: the first is lost |
| `Restart.InvertedTestIff` | gw/bb_smscconn.c:1625-1643 | the third check as written and as commented give the same list if and only if no connection that stays shares its smsc-id with a configured group that matches none |
| `Restart.SameIdKept` | gw/bb_smscconn.c:1625-1643 | a configuration in which they differ |
| `Restart.MarkSameId` | gw/bb_smscconn.c:1634-1639 | what the inner loop marks, with the test as written and as commented |
| `Restart.MatchGroups` | gw/bb_smscconn.c:1596-1644 | the loop over the groups, with either test |
| `Restart.GracefulRestart` | gw/bb_smscconn.c:1567-1719 | kept connections in their order, less those marked, then instances of the new groups |
| `UrlCode.DecodeInvertsEncode` | gwlib/octstr.c:1802-1856 | decoding percent-encoded text gives it back |
| `UrlCode.EncodeIsPlain` | gwlib/octstr.c:1673-1743 | encoded text holds no mark and no NUL |
| `MetaData.ReadField` | gw/meta_data.c:107-221 | the machine reads an encoded field up to its mark and stores it decoded |
| `MetaData.ReadPair` | gw/meta_data.c:107-221 | a printed pair is put into the last group |
| `MetaData.ReadGroup` | gw/meta_data.c:107-221 | a printed group is read as that group, for every key order |
| `MetaData.UnpackInvertsPack` | gw/meta_data.c:107-245 | reading a printed list gives it back, empty names, keys, values and groups included |
| `MetaData.Advance` | gw/meta_data.c:118-216 | the loop body with its control variables equals one step of the machine |
| `MetaData.MetaDataUnpack` | gw/meta_data.c:107-221 | the character loop equals the machine on every input |
| `MetaData.MetaDataPack` | gw/meta_data.c:224-245 | the printing loops write the list in some key order |
| `MetaDataOps.SetMeaning` | gw/meta_data.c:324-365 | setting changes that group and key only, and only where allowed to |
| `MetaDataOps.GetAfterSet` | gw/meta_data.c:324-389 | the same through printing and parsing again |
| `MetaDataOps.MetaDataSetValue` | gw/meta_data.c:324-365 | the operation on the printed text |
| `MetaDataOps.MetaDataGetValue` | gw/meta_data.c:368-389 | the operation on the printed text |
| `MetaDataOps.MergeMeaning` | gw/meta_data.c:422-481 | merging is group-wise override, new over old or old over new |
| `MetaDataOps.MergeOverrides` | gw/meta_data.c:422-481 | the same through printing and parsing |
| `MetaDataOps.MetaDataMerge` | gw/meta_data.c:422-481 | the operation on the printed text |
| `Dlr.SearchComparesEnds` | gw/dlr_mem.c:131-138 | the search from that position is a comparison of the ends |
| `Dlr.EntryMatch` | gw/dlr_mem.c:126-143 | same centre and time stamp, and the destination ends with the number if one is given |
| `Dlr.WaitingList.Add` | gw/dlr.c:328-376 | appends an entry unless no report is asked for or no centre named |
| `Dlr.WaitingList.Get` | gw/dlr_mem.c:148-168 | the first match |
| `Dlr.WaitingList.Remove` | gw/dlr_mem.c:173-191 | removes the first match only |
| `Dlr.WaitingList.Find` | gw/dlr.c:385-487 | the message made and the list left behind |
| `Dlr.ReportCarries` | gw/dlr.c:360-368 | a message made from an entry carries the fields of the message that was sent |
| `Dlr.LeavesIff` | gw/dlr.c:466-481 | an entry leaves if and only if a report is about it and no more are expected |
| `Dlr.RemovedIsReported` | gw/dlr.c:411-481 | the entry removed is the one the message was made from, no other is touched |
| `Dlr.LifeCycle` | gw/dlr.c:385-487 | over every run only the last report about an entry can end it, and the entry waits if and only if none did |
| `Dlr.SurvivesNonFinal` | gw/dlr.h:84-85 | an entry asking for success or failure waits if and only if no final report about it came |
| `Dlr.NothingAfter` | gw/dlr.c:385-487 | a removed entry produces nothing in any later run |
| `Dlr.MessagesAreOwed` | gw/dlr.c:419-462 | the messages made from an entry answer exactly its reports that share its mask |
| `Dlr.OrderKept` | gw/dlr_mem.c:173-191 | entries that remain keep their order |
| `Dlr.OwnEntryRemovedIff` | gw/dlr_mem.c:145-191 | with other threads between lookup and removal, the removal takes the entry looked up if and only if it is still waiting |
| `Dlr.OtherEntryRemoved` | gw/dlr_mem.c:145-191 | two reports at once that remove two entries for one |
| `NumHash.FoundIffInserted` | gw/numhash.c:149-238 | after any insertions a key is found if and only if it was inserted with room left; buckets hold their own keys once |
| `NumHash.InsertAdds` | gw/numhash.c:122-166 | an insertion adds that key and no other |
| `NumHash.DuplicateUsesNode` | gw/numhash.c:149-166 | a number inserted twice uses two nodes |
| `NumHash.WalkLonger` | gw/numhash.c:130-135 | linking behind the last node lengthens that chain by one |
| `NumHash.LinkLast` | gw/numhash.c:124-137 | and leaves every other chain as it was |
| `NumHash.Numhash.AddItem` | gw/numhash.c:122-144 | links a node unless its key is there; chains stay finite and hold the table |
| `NumHash.Numhash.AddNumber` | gw/numhash.c:149-166 | takes a node while there is room; a duplicate uses one but is not linked |
| `NumHash.Numhash.FindKey` | gw/numhash.c:228-238 | the chain walk finds a key if and only if the table contains it |
| `NumHash.HashSize` | gw/numhash.c:177-189 | the size given, the first prime beyond the entries or the largest, or a refusal |
| `NumHash.Init` | gw/numhash.c:171-208 | an empty table of that size |

## Left out

- Character set conversion: 7-bit text is one octet per septet, with the escaped characters counted twice.
- SmsSplit.SmsSplit: asks for a loop that ends (exactly the condition of LoopEndsIff) and for a suffix no longer than the limit, on which the code stops with a failed assertion.
- RoundTrip.SplitThenJoin: the key must not have an entry when the first part arrives, and no time-out may flush it before the last.
- Reassembly.ConcatTable.JoinParts: a part without text counts as empty text, where the code would stop on a failed assertion.
- The table key is a tuple; its printed form, in which an absent address and the text "(null)" are alike, is not modelled.
- The suspended state in which senders wait, heartbeat messages in an smsbox's queue, and the admin and datagram traffic of a box.
- The retry recursion of routing, routing of the parts of a split, and white and black lists.
- Regular expression and prefix tests in routing are truth values of the connection and message.
- Floating point: the share 0.8 in the queue limit is the fraction 4/5; loads are given numbers.
- Checksum collisions, and failures to create a connection in a restart.
- SplitResults.OneOutcome: counts reported outcomes; the second route of the original is counted by SplitResults.FatesIff, and what becomes of it is not followed.
- Data races on the status of a split; a result and the sending loop are interleaved by whole statements.
- Dlr.WaitingList.Find: runs as a whole, and so do the events of Dlr.LifeCycle; what other threads do between lookup and removal is Dlr.OwnEntryRemovedIff.
- NumHash.Numhash.AddNumber: keys are the non-negative values of numhash_get_char_key; two long numbers that saturate to one key are one key.
- Setting or removing several meta-data values at once, and removing one: they would repeat the laws of set.
- SQL, Redis, Cassandra and spool back ends, the HTTP administration interface, load averages, DCS encoding.
