# Verification of Kagi's portable core

The portable core of Kagi decides without doing I/O of its own: it takes requests, ledger and custodian replies and clock ticks, and says what to send. This project models five parts of it in Dafny and proves what they promise.

1. **The storage-key service over a compare-and-swap ledger** (`StorageKey*.dfy`, `Ledger.dfy`). Keys of encrypted storage are split among three custodians. A service releases a key's envelopes to a granted device, renews attachments, rotates and retires key epochs, authorises recoveries and erases resources. `StorageKey` holds records and pure decisions, `StorageKeyService` what an operation does at each message, `StorageKeyServer` the same as a class over its slots, and `StorageKeySystem` the whole system: any number of instances that start and crash, one ledger, an unordered lossy network, custodians that say anything, other clients of the ledger. `StorageKeyInvariants` says what every reachable state keeps, `StorageKeyTurns`, `StorageKeyLog`, `StorageKeySteps` and `StorageKeyRuns` prove it, and `StorageKeyTheorems`, `StorageKeyTickets`, `StorageKeyErasure`, `StorageKeyAnswers`, `StorageKeyCustodians`, `StorageKeyProgress`, `StorageKeyFrames` and `StorageKeyDecisions` draw the conclusions.
2. **The attachment-authorisation service** (`Attachment*.dfy`, `WireBytes.dfy`): publications, grants under them, their records on the wire, and a revocation generation that only rises.
3. **DPoP target URIs and the replay window** (`Uri*.dfy`, `ReplayWindow.dfy`, `Numerals.dfy`): in-place normalisation against sections 5.2.4, 6.2.2 and 6.2.3 of RFC 3986, and a bounded window that fails closed.
4. **DER and RPKI** (`Der*.dfy`, `Rpki*.dfy`): a writer that back-patches lengths in one buffer, an independent reader, dates both ways, RFC 3779 resources along a chain, and signed checklists.
5. **Token text** (`Json*.dfy`, `Claims*.dfy`, `Jws.dfy`, `B64*.dfy`, `Cbor*.dfy`): sorted-merge claims, a scanner that is no parser, base64, compact tokens, and a CBOR skipper.

## How the model stands for the code

- Code that updates slots, buffers and cursors in place is modelled by classes and methods with loops, each proved equal to a function of what it started from; protocols are proved about those functions.
- Identifiers, names and keys are opaque numbers, 0 being the empty or all-zero one. A digest is what it is the digest of (in an attachment record's bytes, a number some hash gives), and only what a service signed verifies. Bytes of text are characters below 256.
- The ledger applies each request it serves at once, or refuses it without effect; it may also apply one and report it as unavailable, and replies may be lost or late. A request is answered once at most. A write's etag is its place in the log of writes. `not found` is answered truthfully.
- Storage-key and attachment namespaces are written by instances of their service only; anyone may claim an anti-replay id or change the device directory. The ledger keeps anti-replay claims and renewal-chain entries for as long as they matter, though the service writes the latter with an expiry (modules/common/storage_key_service.rs:2023-2031).
- The correlation counter does not wrap while an operation lives: it is unbounded here. A restarted instance is a new one under a new name, although its counter begins again at 1 (modules/common/storage_key_service.rs:829-846): that replies meant for the old instance do not reach the new one is assumed of whatever carries them.
- What the clock, the randomness, the signer, the directory and each send do at a call are parameters of the call.

## What was found

- The erasure's sweep counts epochs with saturating additions on both sides of its comparison (modules/common/storage_key_service.rs:1790-1804), so for a grant at epoch 2^32 - 2 or above it never reaches the custodians. `SweepEndsExactlyBelow` gives the exact condition.
- `der_uint` says it reads integers of at most eight bytes, a leading zero allowed; it accepts any nine bytes whose first is below 0x80 and drops the top one (modules/common/rpki.rs:206-218). `NineByteIntegers` gives the exact condition: eight bytes at most, or the first is 0.
- `decode_standard` says padding only ever ends the input; it passes over padding anywhere and drops stray bits (modules/common/b64.rs:115-145). `StandardSpelling` says of which accepted texts it is true, and `StandardHasManySpellings` shows some of which it is not.
- A custom claim may be named `jkt`, and the reader of a bound key (modules/common/device_auth.rs:280) finds that name wherever it stands first. A bound token reads as bound to its own key whatever the custom claims; a token without one reads as bound to a custom `jkt` string. `UnboundReads` gives the exact condition and `UnboundCanReadBound` the input.
- In the last second of a 64-bit clock the replay window admits a proof again (modules/common/dpop.rs:199-216, 867-890). `RecentIsLive` gives the exact condition. A proof checked again under a wider age policy is admitted again once the first policy's age is over; `WidenedPolicyAdmitsAgain` gives the condition.
- A release already past its grant read is not recalled by a later revocation or erasure: the erasure property is about reads served after it. `ReleaseOutlivesErasure` shows it. A rotation whose grant swap fails leaves its creation behind (modules/common/storage_key_service.rs:1513-1520); safety holds all the same, but as `LeftCreationStays` and `LeftCreationRefusesRotation` say, while the grant is live no step takes that creation away, and another rotation to the same epoch ends in a conflict.

## Model

| member | source | states |
|---|---|---|
| `StorageKeyTheorems.LiveGrantHasItsSets` | modules/common/storage_key_service.rs:1290-1319 | in every state any run reaches, a live grant has the recovery set of every epoch it retains under that epoch's key, and the set of its own epoch, if there, carries its set id (it is there from epoch 2 on) |
| `StorageKeyTheorems.SetsGoOnlyWhenDead` | modules/common/storage_key_service.rs:1436-1453 | a step that takes a key out of the ledger takes out a recovery set whose resource is erased or whose epoch the grant has left and no longer admits |
| `StorageKeyTheorems.AuditedBeforeHandedOut` | modules/common/storage_key_service.rs:2377-2410 | a reply with a proven record follows, in the ledger, its own operation's audit entry naming that record, which follows the claim, the ticket and the chain link; its bundle is the record's two envelopes; an unaudited reply carries neither |
| `StorageKeyTheorems.NothingUngranted` | modules/common/storage_key_service.rs:1904-1958 | every custodian order and every record handed out stands on a grant the ledger held that admitted the epoch and lifetime, named the device and was not revoked (or on a ticket), and on that epoch's recorded set |
| `StorageKeyTheorems.GrantsSucceed` | modules/common/storage_key_service.rs:1493-1653 | successive grants raise the generation by one modulo 2^32 and the epoch by none or one, keep grant id and resource, and retain an ascending list below the epoch of at most eight |
| `StorageKeyTheorems.RetiredStaysRetired` | modules/common/storage_key.rs:912-949 | an epoch a grant has left behind and no longer admits is admitted by no later grant of the resource |
| `StorageKeyTheorems.ErasureIsForEver` | modules/common/storage_key_service.rs:1724-1781 | once a resource's grant key holds an erasure it holds that entry, etag and all, in every later state |
| `StorageKeyTheorems.ReadsReturnTheErasure` | modules/common/storage_key_service.rs:1277-1289 | a read of the grant key served in any state after the erasure returns it |
| `StorageKeyTheorems.ReadingAnErasureRefuses` | modules/common/storage_key_service.rs:1277-1289 | an operation other than an erasure that reads one is refused, orders nothing, signs nothing and sends only its audit entry |
| `StorageKeyErasure.ErasureStopsLaterReads` | modules/common/storage_key_service.rs:1277-1289 | over whole runs: a read of the grant served after the erasure brings the erasure back whenever it is delivered, and the operation it reaches, unless an erasure itself, orders nothing, has nothing signed and hands nothing out |
| `StorageKeyErasure.ReleaseOutlivesErasure` | modules/common/storage_key_service.rs:2147-2202 | a release past its grant read completes although the resource is erased |
| `StorageKeyErasure.LeftCreationStays` | modules/common/storage_key_service.rs:1513-1520 | a creation beyond the live grant's epoch, as a failed rotation leaves one, is taken away by no step |
| `StorageKeyErasure.LeftCreationRefusesRotation` | modules/common/storage_key_service.rs:1425-1436 | and the creation of a further rotation to that epoch is not stored over it: that rotation ends in a conflict |
| `StorageKeyTheorems.RenewalsFormOneChain` | modules/common/storage_key_service.rs:2026-2061 | each renewal stored for an attachment names the one it replaced, and the first names the release |
| `StorageKeyTheorems.AttachmentNeverChanges` | modules/common/storage_key.rs:1383-1516 | resource, epoch, fence, recipient, set, policy, grant id, device and attachment id are the same in every renewal of an attachment |
| `StorageKeyTheorems.NothingIsRenewedTwice` | modules/common/storage_key_service.rs:1372-1386 | two renewals handed out that renew one record are the same record from the same operation |
| `StorageKeyTheorems.OrdersAreSingleUse` | modules/common/storage_key_service.rs:2063-2079 | custodians are asked under one anti-replay id by one operation at most, and every recovery order follows the use of a ticket, for its resource and epoch, that no other operation used |
| `StorageKeyTheorems.AntiReplayServesOnce` | modules/common/state_wire.rs:465-508 | an anti-replay id serves at most one release or renewal, across operations, instances and restarts |
| `StorageKeyTheorems.ClaimedOnce` | modules/common/storage_key.rs:2109-2114 | an anti-replay key is written once in the life of the ledger |
| `StorageKeyTheorems.SpentOnce` | modules/common/storage_key_service.rs:2063-2079 | a ticket is marked used by one operation at most |
| `StorageKeyTickets.OperationUsesOneTicket` | modules/common/storage_key_service.rs:2063-2079 | whatever a run does, all tickets one operation marked used are one ticket of one resource |
| `StorageKeyTickets.TicketLeadsToOneOperation` | modules/common/storage_key_service.rs:2063-2079 | a recovery order stands on a ticket its operation used, the only one it ever uses, for the resource and epoch ordered, and no other operation uses that ticket |
| `StorageKeyTheorems.ErasureIsLast` | modules/common/storage_key_service.rs:2544-2577 | nothing is ever written over an erasure, by operations that read the grant before it either |
| `StorageKeyTheorems.ChainRuns` | modules/common/storage_key_service.rs:2026-2061 | along a chain the nesting of digests deepens with every write and the attachment stays the same |
| `StorageKeyRuns.RunKeeps` | modules/common/storage_key_service.rs:885-1079 | the whole invariant (log, ledger, recovery sets, messages, slots, outputs) holds after every run of any number of instances, with loss, delay, crashes and other ledger clients |
| `StorageKeyRuns.StepKeeps` | modules/common/storage_key_service.rs:962-1079 | every single action keeps the invariant |
| `StorageKeyTurns.AdvanceOk` | modules/common/storage_key_service.rs:1268-1471 | from an operation whose facts the log holds, every stage sends only requests that are safe whenever they arrive and decides only what the log backs |
| `StorageKeyTurns.AfterGrantOk` | modules/common/storage_key_service.rs:1473-1653 | the same for each operation's turn on the grant it read |
| `StorageKeyTurns.RotateKeyOk` | modules/common/storage_key_service.rs:1655-1722 | a rotation stores a creation one epoch on and a grant that follows the one read |
| `StorageKeyTurns.StartEraseOk` | modules/common/storage_key_service.rs:1724-1788 | an erasure replaces exactly the grant it read, one generation on |
| `StorageKeyTurns.CustodianResultOk` | modules/common/storage_key_service.rs:2147-2202 | gathering keeps to asked custodians, different shares and this authorisation |
| `StorageKeyTurns.AuditAnswerOk` | modules/common/storage_key_service.rs:2244-2313 | what the answer to the audit write lets out is what the audit entry names |
| `StorageKeyTurns.RemoveDropsOne` | modules/common/storage_key.rs:912-931 | removing a retained epoch leaves the rest, ascending, one shorter and without it |
| `StorageKeyTurns.GrantReadsBack` | modules/common/storage_key.rs:831-861 | the retained list a signed grant carries is the list read back from it |
| `StorageKeyAnswers.AnsweredExactlyOnce` | modules/common/storage_key_service.rs:885-1079 | no request is answered twice or while a slot holds it, no two slots hold one, and one presented to an instance still up is answered as soon as no slot holds it |
| `StorageKeyAnswers.RunAnswers` | modules/common/storage_key_service.rs:2244-2313 | slots, answers and presented requests stay accounted for through every run |
| `StorageKeyCustodians.TwoOfThree` | modules/common/storage_key_service.rs:2081-2242 | for every sequence of custodian messages: completes exactly when two answered validly, fails exactly when two did not, asks the third only after a failure and nobody twice, and hands over two different shares in ascending order under the authorisation |
| `StorageKeyCustodians.AnyHostAsksInTurn` | modules/common/storage_key_service.rs:2081-2242 | the same bounds when signer and custodian ports fail at any message: nobody is asked twice, the third only after an answer that was not valid, and only two valid answers' shares are handed over |
| `StorageKeyCustodians.PollIsFinal` | modules/common/storage_key_service.rs:2147-2202 | a decided release is not changed by any further message |
| `StorageKeyCustodians.PollCountsAnswers` | modules/common/storage_key_service.rs:2147-2202 | every answer counted was given by that custodian's message, and one of each is counted at most |
| `StorageKeyProgress.RepliesBringItCloser` | modules/common/storage_key_service.rs:962-1000 | each ledger reply an operation hears frees its slot or lowers its rank, except in the endless case of the sweep |
| `StorageKeyProgress.AnswersBringItCloser` | modules/common/storage_key_service.rs:1003-1033 | each custodian's answer that is waited for frees the slot, lowers the rank or leaves fewer custodians unanswered; any other answer changes nothing |
| `StorageKeyFrames.EveryReplyFits` | modules/common/storage_key_service.rs:2420-2453 | every reply of every run fits its payload buffer, its length fields and its frame, whatever the lengths of its record's names |
| `StorageKeyFrames.RunSmall` | modules/common/storage_key_service.rs:98-113 | in every run no operation holds, stores or hands out a record of more than three items or of an item longer than an envelope |
| `StorageKeyFrames.LargestFills` | modules/common/storage_key.rs:234-238 | the bound is met: a record of three envelopes and the longest names and signature is as long as the buffer |
| `StorageKeyProgress.SweepEndsExactlyBelow` | modules/common/storage_key_service.rs:1790-1804 | the erasure's sweep reaches the custodians if and only if the grant's epoch is below 2^32 - 2 |
| `StorageKeyProgress.SweepWithoutEnd` | modules/common/storage_key_service.rs:1790-1804 | a sweep at epoch 2^32 - 2 never ends |
| `StorageKeyProgress.TicksEndEverything` | modules/common/storage_key_service.rs:1036-1079 | ticks past the running deadlines, two for each slot, free every slot whatever stage its operation is in |
| `StorageKeyServer.Service.Request` | modules/common/storage_key_service.rs:885-958 | the request handler over arrays is the request function on their contents |
| `StorageKeyServer.Service.LedgerReply` | modules/common/storage_key_service.rs:962-995 | likewise for a ledger reply |
| `StorageKeyServer.Service.CustodianReply` | modules/common/storage_key_service.rs:998-1033 | likewise for a custodian's answer |
| `StorageKeyServer.Service.Expire` | modules/common/storage_key_service.rs:1036-1079 | likewise for a tick: expired challenges cleared, one operation ended at most |
| `StorageKeyServer.Service.Spend` | modules/common/storage_key_service.rs:1137-1160 | the first live challenge of that nonce is spent in place, whether or not the request holds |
| `StorageKeyServer.Service.PickChallengeSlot` | modules/common/storage_key_service.rs:1100-1114 | the slot loop picks the first free slot or the one closest to expiry |
| `StorageKeyServer.SlotTakenIsSafe` | modules/common/storage_key_service.rs:1085-1136 | a new challenge takes a free slot if there is one, else the one that expires soonest |
| `StorageKeyServer.ChallengesAreSpentOnce` | modules/common/storage_key_service.rs:1137-1160 | a challenge passes if and only if it is live and names this resource and device; afterwards it is gone and the others stay |
| `StorageKeyServer.RetainedEpochs.Push` | modules/common/storage_key.rs:895-909 | appends above the last within eight, or refuses and changes nothing |
| `StorageKeyServer.RetainedEpochs.Remove` | modules/common/storage_key.rs:912-931 | closes the gap the epoch leaves; says whether it was there |
| `StorageKeyDecisions.LeaseNeverWidens` | modules/common/storage_key.rs:1383-1516 | over any chain of renewals of a decided release every record is of the resource, epoch, fence, key, device, set and grant first asked for, and each was decided while the one before it ran |
| `StorageKeyDecisions.RevokedLeaseEnds` | modules/common/storage_key.rs:1383-1516 | once every grant read is revoked or names another device, nothing of the chain runs for more than a week, however it is renewed |
| `StorageKeyDecisions.LeaseStaysInHardware` | modules/common/storage_key.rs:1064-1132 | under hardware-bound grants a release and all its renewals stay in hardware, at the tier each grant asks for or above |
| `StorageKeyDecisions.BundleIsOfTwo` | modules/common/storage_key.rs:1643-1665 | a bundle is two different shares under the authorisation, ascending, whichever way round they came |
| `StorageKeyDecisions.EachCustodianItsShare` | modules/common/storage_key.rs:1607-1637 | from the creation of a set, through its recording, to an order under it: each custodian is sent its own share, sealed to its own key, different from the others, and only that share is taken back |
| `UriLaws.NormalTwice` | modules/common/dpop.rs:328-356 | normalisation is idempotent |
| `UriLaws.RemoveDotsTwice` | modules/common/dpop.rs:522-554 | a path whose dot segments were removed has none |
| `UriLaws.PctFixed` | modules/common/dpop.rs:492-519 | percent-encoding normalisation is idempotent |
| `UriVariants.TailIgnored` | modules/common/dpop.rs:328-340 | query and fragment do not change the form |
| `UriVariants.CaseIgnored` | modules/common/dpop.rs:362-444 | case of scheme and authority does not change the form |
| `UriVariants.DefaultPortIgnored` | modules/common/dpop.rs:420-444 | an empty port and the scheme's default port, with or without leading zeros, have the form without one |
| `UriVariants.EncodedPathIgnored` | modules/common/dpop.rs:492-519 | an encoded unreserved character in a path has the form of the character |
| `UriVariants.EncodedHostIgnored` | modules/common/dpop.rs:411-418 | likewise in a registered name: the two URIs have one form |
| `UriVariants.EncodedPathCase` | modules/common/dpop.rs:492-519 | the case of an encoding's digits anywhere in a path, well-formed or not, leaves the URI's form |
| `UriVariants.EncodedHostCase` | modules/common/dpop.rs:492-519 | likewise in a host |
| `UriVariants.DotSegmentsIgnored` | modules/common/dpop.rs:522-554 | a dot segment, or a segment and the double dot after it, however encoded, does not change the form |
| `UriVariants.FinalDotsIgnored` | modules/common/dpop.rs:533-543 | a final dot, or a final segment and double dot, in any encoding, has the URI's form of its slash |
| `UriVariants.RootDotsIgnored` | modules/common/dpop.rs:536-543 | a double dot at the root, in any encoding, leaves the form; alone it is the root |
| `UriVariants.EmptyPathIgnored` | modules/common/dpop.rs:343-348 | an empty path is the root |
| `UriSpellings.RespellingIgnored` | modules/common/dpop.rs:242-259 | any number of such respellings, of any kind and in either direction, end in a URI of the same normal form whenever both ends fit the buffer |
| `UriNormal.RemoveDotSegments` | modules/common/dpop.rs:522-554 | the in-place loop writes the segment-stack reading of section 5.2.4 of RFC 3986 |
| `UriNormal.PctChar` | modules/common/dpop.rs:492-519 | one unit is written in normal form, or refused because it does not read or does not fit |
| `UriTarget.Normalize` | modules/common/dpop.rs:328-356 | writes the normal form, and answers none exactly when there is none or a side exceeds the buffer |
| `UriTarget.WriteAuthority` | modules/common/dpop.rs:362-444 | writes the authority's form or refuses |
| `UriTarget.ReadPort` | modules/common/dpop.rs:426-440 | a port is digits up to 65535, leading zeros allowed |
| `UriTarget.HtuMatches` | modules/common/dpop.rs:242-259 | two URIs match exactly when both have a normal form and it is the same |
| `UriTarget.FormFits` | modules/common/dpop.rs:340-356 | a normal form is never longer than what it is of, but for the slash an empty path becomes |
| `UriWriter.Out.PopSegment` | modules/common/dpop.rs:595-598 | drops the last segment written after the base |
| `UriWriter.Out.WriteDecimal` | modules/common/dpop.rs:580-592 | writes a number's digits |
| `ReplayWindow.Window.Offer` | modules/common/dpop.rs:867-890 | the loop over the arrays is the offer on their contents |
| `ReplayWindow.OfferKeepsLive` | modules/common/dpop.rs:867-890 | no live entry is overwritten and live digests stay different |
| `ReplayWindow.LiveStayDistinct` | modules/common/dpop.rs:842-890 | in any sequence of offers live digests stay different |
| `ReplayWindow.AdmittedOnce` | modules/common/dpop.rs:842-890 | a digest recorded once is answered as seen until it expires, whatever else is offered |
| `ReplayWindow.ProofAdmittedOnce` | modules/common/dpop.rs:199-216 | a proof is admitted at most once while it passes the claim checks, before the clock's last second |
| `ReplayWindow.OtherPolicyAdmitsOnce` | modules/common/dpop.rs:199-216 | checked again under another age policy a proof is still refused while the first policy calls it recent |
| `ReplayWindow.WidenedPolicyAdmitsAgain` | modules/common/dpop.rs:867-890 | and in a window with room it is admitted again exactly when the first policy does not |
| `ReplayWindow.RecentIsLive` | modules/common/dpop.rs:199-216 | a proof that is recent is live exactly before the last second a 64-bit clock shows |
| `ReplayWindow.LastSecondAdmitsAgain` | modules/common/dpop.rs:199-216 | in that last second a proof is admitted again |
| `DerWriter.Writer.WriteTree` | modules/common/der.rs:153-243 | writes the recursive minimal encoding, and succeeds exactly when every length can be written and the widest moment fits |
| `DerWriter.Writer.CloseHeader` | modules/common/der.rs:190-243 | narrows a reserved header: contents shifted down, length patched in |
| `DerWriter.Writer.WriteInteger` | modules/common/der.rs:295-312 | writes a minimal non-negative INTEGER |
| `Der.TreeReadsBack` | modules/common/rpki.rs:127-152 | every tree the writer can emit is read back whole by the reader |
| `Der.ElementReads` | modules/common/rpki.rs:127-152 | an element is read with its tag, contents and exact bytes, whatever follows |
| `Der.ChildrenRead` | modules/common/rpki.rs:127-152 | the elements inside a constructed one are read one by one |
| `Der.EncodingIsUnique` | modules/common/der.rs:167-243 | two trees never share an encoding |
| `Der.LengthIsMinimal` | modules/common/der.rs:246-269 | no shorter header states the same length |
| `Der.IntegerReads` | modules/common/rpki.rs:208-218 | an integer of up to eight bytes reads back as its value |
| `Der.NineByteIntegers` | modules/common/rpki.rs:208-218 | an accepted integer is read as its value if and only if it has eight bytes at most or begins with 0 |
| `Der.DerUint` | modules/common/rpki.rs:208-218 | the shift loop computes what the bytes spell, modulo 2^64 |
| `Der.NineByteVersionReadsZero` | modules/common/rpki.rs:208-218 | the nine-byte integer 2^64 is accepted and read as 0 |
| `DerTime.TimeReadsBack` | modules/common/der.rs:343-377 | every second from 1970 to the end of 9999 is read back from what is written, across the split at 2050 |
| `DerTime.CivilThereAndBack` | modules/common/der.rs:688-714 | the civil date of a second leads back to it by the reader's arithmetic |
| `DerTime.CivilFollowsCalendar` | modules/common/der.rs:688-714 | the civil date moves to the Gregorian calendar's next day every 86400 seconds |
| `DerTime.StartsIn1970` | modules/common/der.rs:688-714 | it starts at 1 January 1970 |
| `DerTime.CivilIsDate` | modules/common/der.rs:688-714 | it is a date the calendar has, leap years included |
| `DerTime.YearBounds` | modules/common/rpki.rs:162-204 | the year is 1970 or later, and at most 9999 exactly before the year 10000 |
| `DerTime.TimeElementReads` | modules/common/rpki.rs:162-204 | and through the reader of elements wherever it stands |
| `Rpki.CoversIsInclusion` | modules/common/rpki.rs:233-247 | covers is exactly inclusion of address sets |
| `Rpki.UnderNarrows` | modules/common/rpki.rs:314-328 | resources in force hold no address the issuer's do not |
| `Rpki.Narrow` | modules/common/rpki.rs:314-338 | computes the resources in force, or refuses exactly when there are none within the bound |
| `Rpki.Lists` | modules/common/rpki.rs:563-579 | a list is clear of a serial exactly when it reads to its end within the bound and names it nowhere |
| `Rpki.IssuedUnder` | modules/common/rpki.rs:586-624 | accepts a certificate exactly when it is issued, valid, inside and on no list of its issuer's |
| `RpkiChecklist.FollowChain` | modules/common/rpki.rs:640-654 | follows the chain to its end exactly when there is one |
| `RpkiChecklist.VerifyObject` | modules/common/rpki.rs:631-688 | accepts the object's certificate exactly under such a chain |
| `RpkiChecklist.PathNarrows` | modules/common/rpki.rs:299-338 | every address in force along a path is the anchor's own |
| `RpkiChecklist.PathIsUnrevoked` | modules/common/rpki.rs:606-623 | no certificate below the anchor is on a list its issuer signed |
| `RpkiChecklist.Verify` | modules/common/rsc_verify.rs:171-266 | a checklist is evidence exactly when the object verifies, it covers the claim and lists the challenge |
| `RpkiChecklist.EvidenceIsAnchored` | modules/common/rsc_verify.rs:182-234 | every address of a verified claim lies in the trust anchor's resources |
| `RpkiChecklist.EvidenceIsUnrevoked` | modules/common/rpki.rs:606-623 | and no certificate of the path is revoked |
| `RpkiChecklist.ClaimIsItsPrefix` | modules/common/rsc_verify.rs:94-107 | an IPv4 claim in the last four octets is the prefix of those bits |
| `RpkiCache.Cache.Put` | modules/common/rsc_verify.rs:525-543 | holds an item under its digest, or nothing when it is empty; digests stay different; another is given up only when all slots are used, and then the oldest |
| `RpkiCache.Cache.Get` | modules/common/rsc_verify.rs:547-551 | returns what is held under a digest, or that nothing is |
| `B64.DecodeEncoded` | modules/common/b64.rs:30-90 | decoding undoes encoding |
| `B64.EncodeDecoded` | modules/common/b64.rs:30-90 | encoding undoes decoding |
| `B64.OneSpelling` | modules/common/b64.rs:67-90 | two texts that decode to the same bytes are the same |
| `B64.DecodeStandardEncoded` | modules/common/b64.rs:115-175 | padded standard text decodes to its input |
| `B64Standard.StandardSpelling` | modules/common/b64.rs:115-175 | accepted text is the encoding of what it decodes to if and only if it is of whole groups of four, has padding only where its last group is short, and drops no bits there |
| `B64Loops.DecodeStandardInto` | modules/common/b64.rs:115-150 | the accumulator loop decodes exactly what decodes and fits the buffer |
| `B64.StandardHasManySpellings` | modules/common/b64.rs:115-145 | unlike the url form, standard text is accepted in other spellings |
| `B64Loops.EncodeInto` | modules/common/b64.rs:30-63 | the packing loop writes the encoding exactly when it fits |
| `B64Loops.DecodeInto` | modules/common/b64.rs:67-90 | the accumulator loop with its 32-bit shift decodes exactly what decodes and fits |
| `B64Loops.EncodeStandardInto` | modules/common/b64.rs:161-175 | the translated and padded encoding |
| `B64Loops.ShiftCarries` | modules/common/b64.rs:74-84 | the wrapping accumulator carries the pending bits |
| `Jws.Split` | modules/common/jose.rs:343-369 | splits a token exactly when it is three non-empty segments without dots |
| `Jws.TokenSplits` | modules/common/jose.rs:289-369 | an assembled token splits exactly when none of its parts is empty, into segments that decode to them |
| `Jws.SplitIsUnique` | modules/common/jose.rs:343-369 | and in one way only |
| `Jws.WriteSigningInput` | modules/common/jose.rs:289-303 | writes the signing input exactly when it fits |
| `Jws.AppendSignature` | modules/common/jose.rs:308-321 | appends the signature segment exactly when it fits |
| `ClaimsWriter.WriteClaims` | modules/common/jose.rs:132-211 | writes the claims object exactly when the custom claims are acceptable and it fits, and says which fault otherwise |
| `ClaimsMerge.MergedAreClaims` | modules/common/jose.rs:166-211 | the merge holds each active reserved and each custom claim once, strictly ascending |
| `ClaimsMerge.SortKeys` | modules/common/jose.rs:152-158 | the insertion sort over the index table orders the keys and keeps every index once |
| `Claims.AscendingUnique` | modules/common/jose.rs:132-211 | there is one ascending order of the claims |
| `Claims.KeyGreater` | modules/common/jose.rs:257-267 | the byte loop is the strict lexicographic order |
| `ClaimsWriter.ReservedReadBack` | modules/common/jose.rs:378-492 | with no raw custom value both numbers, and exactly the record-safe strings, are read back unchanged, the bound key's thumbprint inside its confirmation among them |
| `ClaimsWriter.UnboundReads` | modules/common/device_auth.rs:278-283 | a token without a bound key reads as bound exactly when a custom claim of its own is a string named `jkt`, and then to that string |
| `ClaimsWriter.UnboundCanReadBound` | modules/common/jose.rs:95-103 | such a custom claim is accepted by the writer |
| `JsonScan.NumberReadsBack` | modules/common/jose.rs:378-416 | for any name the number scanner answers with the first member of that name (or the thumbprint in a confirmation before it): its number if it has sixty-four bits, else nothing |
| `JsonScan.TextReadsBack` | modules/common/jose.rs:453-492 | likewise the string scanner: the string as it was escaped, else nothing |
| `JsonScan.AbsentIsNotRead` | modules/common/jose.rs:378-492 | a name no member answers to is not found |
| `JsonScan.RawCanAnswer` | modules/common/jose.rs:378-416 | a raw value can answer for a later claim |
| `JsonScan.ReadNumber` | modules/common/jose.rs:378-416 | the number scanner's loops |
| `JsonScan.ReadText` | modules/common/jose.rs:453-492 | the string scanner's loops |
| `Json.PassInside` | modules/common/jose.rs:528-548 | the inside of an escaped string holds no key, whatever it says |
| `Json.SafeIsUnescaped` | modules/common/jose.rs:441-451 | exactly the record-safe strings are written as they are |
| `JsonWriter.Writer.WriteString` | modules/common/jose.rs:528-548 | writes a quoted, escaped string exactly when it fits |
| `JsonWriter.Writer.WriteNumber` | modules/common/jose.rs:551-564 | writes a number's decimal digits exactly when they fit |
| `Cbor.SkipIsItem` | modules/common/cbor.rs:187-213 | skipping ends at a place exactly when an item not too deep lies there and ends there |
| `Cbor.SkipItem` | modules/common/cbor.rs:187-213 | an item is skipped to its end whatever follows, or refused as too deep exactly when it is |
| `Cbor.HeadReads` | modules/common/cbor.rs:81-112 | a head of any width reads as what it was written for |
| `Cbor.ReadIsHead` | modules/common/cbor.rs:81-112 | a head that reads is one that could be written |
| `CborReader.Reader.SkipAtDepth` | modules/common/cbor.rs:187-213 | the recursive skipper terminates in bounds on all bytes |
| `CborReader.Reader.SeekKey` | modules/common/cbor.rs:218-245 | leaves the cursor at the key's value or puts it back |
| `CborReader.SeekLands` | modules/common/cbor.rs:218-245 | lookup lands past the map's head and every item before the first value of the key, which fixes the place, and reports absence exactly |
| `CborReader.FirstValueIsFirst` | modules/common/cbor.rs:218-245 | that value is the one after the first such key |
| `AttachmentSystem.GenerationOnlyRises` | modules/common/attachment_grant_service.rs:426-551 | a service's stored revocation generation never falls, however revocations race |
| `AttachmentSystem.RunKeeps` | modules/common/attachment_grant_service.rs:167-551 | writes to one key rise, and every swap in flight is from a lower generation, in every run |
| `AttachmentSystem.RevokedInEveryRun` | modules/common/attachment_grant.rs:861-863 | over whole runs: once the stored generation has passed a publication's, a grant under it whose read is served from then on is refused, whenever the reply is delivered |
| `AttachmentService.TwoPhasesAreOne` | modules/common/attachment_grant_service.rs:332-377 | a request past its first decision is answered as one decision at the ledger's reply |
| `AttachmentService.OtherGenerationIsRevoked` | modules/common/attachment_grant.rs:861-863 | a publication of any generation but the one read is refused as revoked |
| `AttachmentService.Service.OnRequestFrom` | modules/common/attachment_grant_service.rs:167-246 | the request handler over its slots is the request function on their contents |
| `AttachmentService.Service.OnLedgerReply` | modules/common/attachment_grant_service.rs:249-290 | likewise for a ledger reply |
| `AttachmentService.Service.OnTick` | modules/common/attachment_grant_service.rs:292-304 | likewise for a tick: every late operation ends |
| `AttachmentGrant.GrantIsNarrower` | modules/common/attachment_grant.rs:837-896 | a request is granted exactly when it may attach, and within its publication's quotas, sets and expiry |
| `AttachmentCodec.RecordParsesBack` | modules/common/attachment_grant.rs:358-520 | a record that was written and signed parses back: fields, signer, suite, signature, and as signed bytes the ones that were |
| `AttachmentCodec.GrantVerifiesFromBytes` | modules/common/attachment_grant.rs:494-565 | a decided grant, written and signed, parses and verifies as a grant from five seconds before it was issued until it expires and at no other time, and never as a publication |
| `AttachmentCodec.PublicationVerifiesFromBytes` | modules/common/attachment_grant.rs:494-565 | likewise a publication, stamped with any generation, and it comes back exactly as decided |
| `AttachmentCodec.OnlySignedVerifies` | modules/common/attachment_grant.rs:522-541 | whatever verifies was signed, every byte of it before the signature, by the key it names |
| `AttachmentCodec.RecordFits` | modules/common/attachment_grant.rs:133-134 | every record fits the buffer it is written in |
| `AttachmentCodec.WriteUnsigned` | modules/common/attachment_grant.rs:452-473 | writes the unsigned record exactly when the signer's lengths are allowed and it fits |
| `AttachmentGrant.FindRepeat` | modules/common/attachment_grant.rs:299-319 | the nested loops find a repeated entry exactly when there is one |

## Left out

- Byte layouts of storage-key records, request bodies, frames, keys and audit entries: records are values with a size, and a body its reader refuses is one value.
- Audit names of device and actor, statistics counters, and the oversize-body refusal of the request handler.
- Hashing, signatures, randomness, vault calls and timing behaviour.
- Proof claims other than freshness and target URI (modules/common/dpop.rs:102-200, 611-806): the JSON object reader of DPoP headers and claims is not modelled.
- Certificate, CRL and CMS parsing (modules/common/rpki.rs:399-475, 516-559, 655-735): certificates, lists and signed objects are taken as read, an unreadable one as its refusal.
- The typed-operation codec of the checklist service and its reply encodings (modules/common/rsc_verify.rs:300-500, 556-600).
- Leaf and CA certificate profiles of the DER writer (modules/common/der.rs:323-341, 380-670): the tree they build is arbitrary here.
- GeneralizedTime of year 0 before March: the reader's subtraction underflows there; the model answers none.
- Jws.EncodeAt: a sub-slice of the caller's buffer is written through a copy.
- ReplayWindow.ProofAdmittedOnce: is about one proof under one age policy; two proofs that share a `jti` but not their dates have records that expire apart.
- StorageKeyProgress.RepliesBringItCloser: bounds the ledger replies of one operation, and AnswersBringItCloser its custodians' answers; that either answer at all is not assumed, and ticks end what they leave waiting.
- Ranges in RFC 3779 address blocks, array claims, and the other typed services of the repository.
- StorageKeyCustodians.AnyHostAsksInTurn: is about the messages that reach one operation, in the order they reach it; that a run delivers them so is StorageKeySystem's step for a custodian's answer.
