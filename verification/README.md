# A verified model of the MRP daemon

`mrpd` is an endpoint implementation of the Multiple Registration Protocol of IEEE 802.1Q-2011: stations declare
VLANs (MVRP), multicast addresses and services (MMRP), and talkers, listeners and stream classes (MSRP), and learn
from each other's frames what the others declare. This project models that daemon in Dafny, from the protocol
machines up to the bytes of a frame, and proves what the daemon is for: that declarations are neither lost nor
invented, that registrations follow what is heard, that timers and transmissions behave over every run, and that
what one station encodes is what another station decodes.

The layers, bottom up:

- **Machines.** `Mrp` holds the applicant, registrar and LeaveAll tables and the timers; `Applicant` states the
  rules behind the applicant's state names (how anxious, and in which role) and proves that they determine the
  table; `Lives` tells the life of one attribute by these rules and by the rules of the registrar.
- **Participants.** `Mvrp`, `Mmrp` and `Msrp` are the databases as transition systems over their attribute lists
  and timers; `Participant`, `KeySets`, `Transmission` and `LeaveTimer` hold what they share. Each database is
  proved to be a product of independent lives, one per key (`MvrpProperties`, `MmrpProperties`, `MsrpProduct`), and
  its declared, registered and leaving sets to follow from the inputs (`MvrpProperties`, `MmrpProperties`,
  `MsrpProperties`). `MvrpTransmission` is about when MVRP transmits.
- **Wire.** `Wire`, `MvrpCodec`, `MvrpRoundTrip`, `MvrpFrames`, `MvrpCapacity` and `MvrpBytes` cover MVRP frames;
  `Eui64`, `StreamValues`, `MsrpCodec`, `MsrpRoundTrip`, `MsrpMessages`, `MsrpFrames`, `MsrpCapacity` and `MsrpBytes`
  cover MSRP frames with talker, listener and domain messages. The two `Bytes` modules spell out frames in literal
  bytes and say what receivers do not accept.
- **Composition.** `Convergence` and `MvrpSignals` connect the transmit path of one MVRP station to the receive path
  of another; `MsrpStations`, `MsrpSender`, `MsrpSelection` and `MsrpConvergence` do so for MSRP.
- **In place.** `AttributeList` is the doubly linked list that the daemon relinks; `EntryList` the walks over it;
  `MvrpEmitter`, `MvrpTransmitter`, `MvrpDatabase`, `MmrpDatabase` and `MsrpDatabase` are the daemon's functions as
  methods on the heap, each proved to do what its transition system says. `MvrpExchange` lets two such databases
  exchange a frame.
- **Satellites.** `Queue` is the semaphore ring queue under arbitrary interleaving, `Eui64Set` the sorted stream-ID
  index.

Assumptions: allocation and the starting of timers succeed; a timer does not fire early; a receive buffer reads as
zero beyond the frame (`daemons/mrpd/mrpd.c:403`); `qsort` sorts (it is implemented here by insertion) and
`bsearch` bisects. `operPointToPointMAC` is a field of the databases, so everything is proved for both values. Time
is a number that comes with each input.

Five properties one might expect hold of the code only under a condition, which is proved exact, with an input at
which they fail:

- leavealltimer! can leave an applicant with something to send and no join timer running. It does not do so if and
  only if every applicant is in AN, QP, AP, AA or QA (`MvrpTransmission.LeaveAllKeepsAwakeIff`,
  `MvrpTransmission.LeaveAllCanLoseWakeup`, and the same for MMRP and MSRP; what a receiver sees of it is
  `MvrpSignals.LeaveAllEffect`). MSRP, which ignores periodic!, has nothing that restores it.
- An MVRP frame carries everything selected for it if and only if the vectors take at most 1978 bytes
  (`MvrpFrames.FrameCarriesAllIff`, `MvrpCapacity.FrameCanLoseVid`).
- A transmission that the applicant counts as a New puts that New on the wire if and only if the vectors begun take
  at most 1978 bytes and fewer than 1975 bytes of vectors precede that of the VID (`MvrpSignals.AnnouncedIff`). With
  room, every New is announced in at least two frames (`MvrpSignals.NewHeardTwice`); without, it can be announced in
  none (`MvrpSignals.NewCanGoUnannounced`).
- A listener message decodes to what was sent if and only if every sent substate is 1, 2 or 3; the client command
  accepts any number (`MsrpMessages.ListenerRoundTripIff`, `MsrpMessages.ListenerCanBeIgnored`).
- A talker advertise that is announced in an MSRP frame ends up registered, unless the receiver itself declares that
  talker as failed and the frame signals LeaveAll and has a message for failed talkers: that message comes later
  and starts the leave period again (`MsrpConvergence.Converges`, `MsrpConvergence.AnnouncedCanBeLeaving`).

The stream-ID index behaves as a multiset over every history (`Eui64Set.Replay`), hence as a set over histories
without duplicate insertions, which the client commands ensure (`Eui64Set.RefinesSet`).

## Model

| member | source | states |
|---|---|---|
| Applicant.NamesAreUnique | daemons/mrpd/mrp.c:551-904 | anxiety and role together identify each of the twelve applicant states |
| Applicant.MembersDeclare | daemons/mrpd/mrp.c:551-904 | the declaring states are those of members that are not leaving, the pending ones those not yet settled |
| Applicant.TableFollowsRules | daemons/mrpd/mrp.c:551-904 | for every state and event, next state and request of the table are those the rules on anxiety and role give |
| Applicant.RulesDecide | daemons/mrpd/mrp.c:551-904 | the rules leave no choice: any table of next states that follows them is this one |
| Applicant.DeclaresAfter | daemons/mrpd/mrp.c:551-904 | only New!, Join!, Lv! and Begin! change whether an applicant declares |
| Applicant.NewStays | daemons/mrpd/mrp.c:565-579 | a new member stays one until it has said New twice, whatever is heard, unless its client leaves |
| Applicant.LeaveAllSays | daemons/mrpd/mrp.c:627-687 | with a LeaveAll a station re-declares exactly what it declares, except as VP |
| Lives.RegistrarFollowsRules | daemons/mrpd/mrp.c:932-1053 | the registrar follows its rules for every event, a client's requests included; the leave timer is started exactly when something registered begins to leave |
| Lives.TouchMoves | daemons/mrpd/mvrp.c:269-336 | an attribute event moves both machines of its attribute by the rules, and makes it known unless it is rMt! |
| Lives.PurgeMoves | daemons/mrpd/mvrp.c:1300-1342 | what is reclaimed is exactly what is not registered and observed without anything left to say |
| Participant.GetAll | daemons/mrpd/mvrp.c:166-190 | an event loop over the list does to each key what the machines do to that key alone, and keeps keys distinct |
| Participant.PurgeExact | daemons/mrpd/mvrp.c:1300-1342 | reclaiming keeps an attribute if and only if it is not (MT and VO, AO or QO) |
| Participant.GetPurge | daemons/mrpd/mvrp.c:1300-1342 | what reclaiming does, seen from one key |
| Participant.BlockPosExact | daemons/mrpd/mmrp.c:85-185 | the add position of MMRP and MSRP: in the first run of like keys, behind the smaller ones and in front of the first that is not, or at the tail |
| Mvrp.InsertAscending | daemons/mrpd/mvrp.c:87-139 | the add position keeps the list strictly ascending by VID |
| Mvrp.PurgeAscending | daemons/mrpd/mvrp.c:1300-1342 | reclaiming keeps the order of the rest |
| Mvrp.StepValid | daemons/mrpd/mvrp.c:155-360 | every input keeps the list strictly ascending and within 16 bits |
| Mvrp.GetStep | daemons/mrpd/mvrp.c:155-360 | the database is the product of independent per-VID machines: each input acts on each VID as on that VID alone |
| MvrpProperties.RunValid | daemons/mrpd/mvrp.c:155-360 | the list is ascending after every run |
| MvrpProperties.DeclaredRefines | daemons/mrpd/mvrp.c:155-332 | over every run the declared VIDs equal the set replayed from local New, Join and Lv alone |
| MvrpProperties.RegisteredRefines | daemons/mrpd/mvrp.c:166-332 | over every run the registered VIDs equal the replayed simple set; tx!, timers, rIn, rMt and reclaims change nothing |
| MvrpProperties.LeavingRefines | daemons/mrpd/mrp.c:932-1053 | over every run the VIDs in LV equal the replayed set: rLv and Lv add a registered VID, LeaveAll adds all registered ones, registrations and New remove, leavetimer! clears, nothing else changes it |
| MvrpProperties.LivesRefine | daemons/mrpd/mvrp.c:155-336 | over every run each VID goes through the states that the rules of both machines give for the inputs that concern it |
| MvrpProperties.StepRearms | daemons/mrpd/mrp.c:954-957 | the leave timer is set to now + 1000 ms exactly by the input that begins a leave period, stopped by leavetimer!, and otherwise left alone |
| LeaveTimer.AlwaysCovered | daemons/mrpd/mrp.c:382-408 | whenever something is in LV the shared timer runs |
| LeaveTimer.NeverEarly | daemons/mrpd/mrp.c:943-961 | a key that is in LV when the timer fires has been there for a full leave period |
| MvrpProperties.StepView | daemons/mrpd/mvrp.c:166-332 | an input that adds to LV leaves the timer running with expiry now + 1000; any other but leavetimer! leaves the timer alone; leavetimer! empties LV |
| MvrpProperties.LeaveTimerSound | daemons/mrpd/mvrp.c:236-250 | both timer guarantees for every timed MVRP run |
| MmrpProperties.LivesRefine | daemons/mrpd/mmrp.c:201-397 | over every run each key goes through the states that the rules give for the inputs that concern it; only a LeaveAll for its kind does |
| MmrpProperties.DeclaredRefines | daemons/mrpd/mmrp.c:305-375 | over every run the declared keys equal the set replayed from local New, Join and Lv alone |
| MmrpProperties.RegisteredRefines | daemons/mrpd/mmrp.c:201-397 | over every run the registered keys equal the replayed set; a received LeaveAll removes exactly its kind; timers, tx!, rIn, rMt and reclaims change nothing |
| MmrpProperties.LeavingRefines | daemons/mrpd/mmrp.c:201-397 | over every run the keys in LV equal the replayed set; a received LeaveAll adds the registered keys of its kind |
| MmrpProperties.JoinTimerExact | daemons/mrpd/mmrp.c:201-397 | after every input, exactly when the join timer runs |
| MmrpProperties.NoLostWakeup | daemons/mrpd/mmrp.c:201-397 | every input but leavealltimer! keeps "something pending implies the join timer runs" |
| MmrpProperties.LeaveAllKeepsAwakeIff | daemons/mrpd/mmrp.c:206-233 | leavealltimer! keeps it if and only if every applicant is in AN, QP, AP, AA or QA |
| MmrpProperties.LeaveAllCanLoseWakeup | daemons/mrpd/mmrp.c:206-233 | after a Join and leavealltimer! something is pending without a timer |
| MmrpProperties.LeaveAllAlwaysQuiet | daemons/mrpd/mmrp.c:206-260 | between MMRP events the LeaveAll machine is passive, its mark clear, its timer running |
| MmrpProperties.StepView | daemons/mrpd/mmrp.c:201-397 | an MMRP input that adds to LV leaves the timer running with expiry now + 1000; any other but leavetimer! leaves the timer alone; leavetimer! empties LV |
| MmrpProperties.LeaveTimerRuns | daemons/mrpd/mmrp.c:283-294 | in every timed MMRP run the timer runs whenever an attribute is in LV |
| MmrpProperties.LeaveTimerNeverEarly | daemons/mrpd/mmrp.c:283-294 | leavetimer! never finds an MMRP attribute that entered LV less than 1000 ms before |
| Transmission.TxLowersRank | daemons/mrpd/mrp.c:719-791 | each tx! strictly lowers a positive rank and asks for another opportunity exactly if the rank is still positive |
| MvrpTransmission.RearmedIffPending | daemons/mrpd/mvrp.c:211-235 | tx! re-arms the join timer if and only if something is left to send |
| MvrpTransmission.JoinTimerExact | daemons/mrpd/mvrp.c:155-336 | after every input, exactly when the join timer runs |
| MvrpTransmission.ThreeTransmitsQuiesce | daemons/mrpd/mvrp.c:211-235 | from any state, three tx! in a row leave all applicants quiet and the join timer off |
| MvrpTransmission.NoLostWakeup | daemons/mrpd/mvrp.c:191-336 | every input but leavealltimer! keeps "something pending implies the join timer runs" |
| MvrpTransmission.PeriodicWakes | daemons/mrpd/mvrp.c:251-268 | periodic! establishes it from any state |
| MvrpTransmission.LeaveAllKeepsAwakeIff | daemons/mrpd/mvrp.c:166-190 | leavealltimer! keeps it if and only if every applicant is in AN, QP, AP, AA or QA |
| MvrpTransmission.LeaveAllCanLoseWakeup | daemons/mrpd/mvrp.c:166-190 | a database in which leavealltimer! leaves a pending applicant without a timer |
| MvrpTransmission.AwakeSincePeriodic | daemons/mrpd/mvrp.c:191-336 | after a periodic! and any inputs but leavealltimer! nothing pending is without a timer |
| MvrpTransmission.AfterLeaveTimer | daemons/mrpd/mvrp.c:236-250 | after leavetimer! no attribute is in LV or reclaimable |
| MvrpTransmission.CollectKeepsSets | daemons/mrpd/mvrp.c:1330-1342 | reclaiming removes nothing declared and nothing registered |
| MvrpTransmission.LeaveAllAlwaysQuiet | daemons/mrpd/mrp.c:446-504 | between MVRP events the LeaveAll machine is passive, its mark clear, its timer running |
| MvrpTransmission.QuietFromStart | daemons/mrpd/mvrp.c:1243-1298 | so it is in every state reached after initialization |
| MvrpTransmission.NewMarkedTwice | daemons/mrpd/mrp.c:565-579 | an applicant put into VN by New! leaves VN and AN only after at least two opportunities at which its attribute was marked New, unless Lv! intervenes |
| Wire.MessageMeaning | daemons/mrpd/mrp.h:170-175 | every message an applicant sends arrives as the event it means, Join and In with the sender's registrar state |
| Wire.UnpackPackAll | daemons/mrpd/mrp.h:177-177 | taking a packed vector apart gives back every event |
| Wire.PackedIs | daemons/mrpd/mrp.h:177-177 | a packed vector byte by byte: 36, 6 and 1 times the events, zeroes where there are none |
| Wire.HeaderRoundTrip | daemons/mrpd/mrp.h:186-188 | NumberOfValues and the LeaveAll flag come back from a vector header |
| MvrpRoundTrip.VectorsDecode | daemons/mrpd/mvrp.c:469-612 | the vector loop of the receiver undoes the vector loop of the emitter, for any number and length of runs |
| MvrpRoundTrip.RunFitsHeader | daemons/mrpd/mrp.h:186-186 | no run that fits a frame has more values than NumberOfValues can count |
| MvrpFrames.FrameRoundTrip | daemons/mrpd/mvrp.c:646-889 | a frame, with any zero padding, is dispatched as exactly one event per encoded attribute, in order, after one rLA! if and only if LeaveAll was signalled |
| MvrpFrames.FrameFits | daemons/mrpd/mvrp.c:891-1009 | a frame never exceeds the buffer |
| MvrpFrames.SelectedExactly | daemons/mrpd/mvrp.c:678-850 | which attributes are encoded: the mandatory ones, and the optional ones that a run from a mandatory one reaches |
| MvrpFrames.FrameCarriesAllIff | daemons/mrpd/mvrp.c:646-889 | the selection goes out whole if and only if its vectors take at most 1978 bytes |
| MvrpCapacity.FrameGoesOutIff | daemons/mrpd/mvrp.c:647-889 | a frame goes out if and only if there is something to send and the vectors begun take at most 1978 bytes |
| MvrpCapacity.SentIff | daemons/mrpd/mvrp.c:677-852 | a mandatory attribute is sent if and only if fewer than 1975 bytes of vectors precede its own |
| MvrpCapacity.FrameCanLoseVid | daemons/mrpd/mvrp.c:677-677 | 396 even VIDs: the frame goes out without the last of them, though it was selected |
| MvrpBytes.FrameBytes | daemons/mrpd/mvrp.c:891-1009 | the frame for a run of VIDs in literal bytes, from destination address to endmarks |
| MvrpBytes.AllMessagesFrame | daemons/mrpd/mvrp.c:697-741 | the frame of a station that says New, JoinIn, In, JoinMt, Mt and Lv, in literal bytes |
| MvrpBytes.ForeignFrameIgnored | daemons/mrpd/mvrp.c:414-428 | a frame that is too short or not addressed to MVRP raises nothing |
| MvrpBytes.BadVectorEnds | daemons/mrpd/mvrp.c:498-531 | a vector without values or with more than the frame holds ends the parsing; only its LeaveAll is taken |
| MvrpBytes.BadMessageEnds | daemons/mrpd/mvrp.c:483-621 | an unknown type in version 0 and a wrong length in any version end the parsing |
| MvrpBytes.NewerMessageSkipped | daemons/mrpd/mvrp.c:613-635 | a message that only a newer version knows is passed over, and parsing resumes behind it |
| Convergence.OffersWellFormed | daemons/mrpd/mrp.c:627-791 | after tx! and txLA! every attribute has a message the emitter can encode, so its "huh?" exits are unreachable |
| Convergence.ReceiveKeepsDeclared | daemons/mrpd/mvrp.c:389-644 | no frame, well-formed or not, changes what the receiver declares or breaks its list |
| Convergence.FrameEffect | daemons/mrpd/mvrp.c:389-644 | exactly which registrations a frame, padded or not, adds and removes at its receiver |
| Convergence.Converges | daemons/mrpd/mvrp.c:211-268 | from any two databases, periodic! and tx! at one and delivery of the frame, padded or not, to the other make every declared 12-bit VID registered there, and the registered set is given exactly |
| MvrpSignals.LeaveAllFromTimerOnly | daemons/mrpd/mvrp.c:166-190 | in every reachable state a frame raises rLA! if and only if leavealltimer! built it |
| MvrpSignals.AnnouncedIff | daemons/mrpd/mvrp.c:646-889 | a 12-bit VID that tx! or leavealltimer! marks New reaches the receiver as rNew! if and only if the vectors begun take at most 1978 bytes and fewer than 1975 precede its own |
| MvrpSignals.NewHeardTwice | daemons/mrpd/mvrp.c:211-235 | over every run in which there was room, an applicant put into VN leaves VN and AN only after at least two frames that the receiver dispatches as rNew! for its VID, unless Lv! intervenes |
| MvrpSignals.SmallIsRoomThroughout | daemons/mrpd/mvrp.c:677-852 | there was room whenever no transmission of the run had more than 1978 bytes of vectors |
| MvrpSignals.NewCanGoUnannounced | daemons/mrpd/mvrp.c:677-677 | a run from initialization after which VID 790 owes no New, though both frames went out and neither announced it |
| MvrpSignals.LeaveAllEffect | daemons/mrpd/mvrp.c:166-190 | after the frame of leavealltimer! the receiver has registered exactly the sender's declared 12-bit VIDs that are not in VP |
| AttributeList.List.InsertBefore | daemons/mrpd/mvrp.c:108-118 | head insertion keeps the list linked both ways and inserts at that position |
| AttributeList.List.InsertAfter | daemons/mrpd/mmrp.c:111-116 | tail insertion keeps the list linked both ways and inserts behind that position |
| AttributeList.List.Unlink | daemons/mrpd/mvrp.c:1308-1313 | unlinking keeps the rest linked both ways, in order |
| MvrpEmitter.EmitVector | daemons/mrpd/mvrp.c:687-852 | one vector, written in place, is the specified one; the flags of its attributes are cleared; "oops" exactly on overrun or an unknown message |
| MvrpTransmitter.EmitVidVectors | daemons/mrpd/mvrp.c:647-889 | the message in the buffer is the specified one, no write leaves the buffer, no state changes |
| MvrpTransmitter.TxPdu | daemons/mrpd/mvrp.c:891-1009 | the frame handed to the network is the specified one |
| MvrpDatabase.Database.Find | daemons/mrpd/mvrp.c:74-85 | finds the first attribute with the VID, or none |
| MvrpDatabase.Database.Add | daemons/mrpd/mvrp.c:87-139 | stitches a fresh attribute in before the first VID that is not smaller |
| MvrpDatabase.Database.ConditionalReclaim | daemons/mrpd/mvrp.c:1300-1328 | unlinks exactly a reclaimable attribute and returns the one that follows |
| MvrpDatabase.Database.Handle | daemons/mrpd/mvrp.c:155-360 | every input takes the heap database to the state, and sends the frame, that the transition system gives |
| MvrpDatabase.Database.RecvMsg | daemons/mrpd/mvrp.c:389-644 | receiving a frame takes the heap database where handling every dispatched input takes it |
| MvrpDatabase.LeftIsPurge | daemons/mrpd/mvrp.c:236-250 | the loop that expires and unlinks attribute by attribute leaves what expiring all and then reclaiming all leaves |
| MvrpExchange.Exchange | daemons/mrpd/mvrp.c:155-1009 | two heap databases: after the exchange every declared 12-bit VID of one is registered at the other, and no declaration has changed |
| Mmrp.AddPosSplits | daemons/mrpd/mmrp.c:85-185 | the add position lies in the block of the attribute's kind, behind the smaller and before the larger keys, or at the tail |
| Mmrp.PurgeValid | daemons/mrpd/mmrp.c:1773-1800 | reclaiming keeps the two ascending blocks |
| Mmrp.StepValid | daemons/mrpd/mmrp.c:58-397 | every input keeps the list in at most two contiguous blocks, each strictly ascending |
| Mmrp.LookupExact | daemons/mrpd/mmrp.c:58-83 | after every run each key is there once and lookup finds it where it is |
| EntryList.Add | daemons/mrpd/mmrp.c:85-185 | the walk and the relinking put a fresh attribute at the specified position of the linked list |
| EntryList.Sweep | daemons/mrpd/mmrp.c:1773-1800 | the reclaiming loop leaves exactly the attributes that are not reclaimable, in order and linked |
| MmrpDatabase.Database.Find | daemons/mrpd/mmrp.c:58-83 | finds the first attribute with the key, or none |
| MmrpDatabase.Database.Handle | daemons/mrpd/mmrp.c:201-397 | every input takes the heap database to the state that the transition system gives |
| StreamValues.IncrementInPlace | daemons/mrpd/mmrp.c:425-440 | the in-place loop computes the increment function |
| StreamValues.IncrementIsSuccessor | daemons/mrpd/msrp.c:692-707 | incrementing adds one to all bytes after the first, modulo their range, and never touches the first |
| Msrp.MergeFollows | daemons/mrpd/msrp.c:304-411 | merging, field by field for each kind and direction: what is taken over and what stays, exactly when the registrar is reset, and that it remains the same attribute |
| Msrp.AddedInRun | daemons/mrpd/msrp.c:192-302 | a new attribute is added to the first run of exactly its kind, behind the smaller IDs, or at the tail |
| MsrpProduct.StepLife | daemons/mrpd/msrp.c:416-641 | every input moves every talker, listener and class by the rules of both machines; news about stored data end the registration first, a LeaveAll concerns exactly the stored kind it names, periodic! nothing |
| MsrpProduct.StepData | daemons/mrpd/msrp.c:304-641 | stored data change only through events for that identity: unknown, stored as declared; known, following field by field |
| Msrp.StepValid | daemons/mrpd/msrp.c:416-664 | every input keeps at most one attribute per domain class, per listener, and per talker (Advertise and Failed together) |
| MsrpProperties.LookupExact | daemons/mrpd/msrp.c:145-174 | after every run lookup finds each stored attribute where it is |
| MsrpProperties.LeaveAllAlwaysQuiet | daemons/mrpd/msrp.c:433-463 | between MSRP events the LeaveAll machine is passive, its mark clear, its timer running |
| MsrpProperties.QuietFromStart | daemons/mrpd/msrp.c:3828-3893 | so it is in every state reached after initialization |
| MsrpProperties.DeclaredRefines | daemons/mrpd/msrp.c:541-641 | over every run the declared talkers, listeners and classes equal the set replayed from local New, Join and Lv alone |
| MsrpProperties.RegisteredRefines | daemons/mrpd/msrp.c:416-641 | over every run the registered identities equal the replayed set: joins add, leaves and New remove, rIn and rMt remove exactly on news, a LeaveAll removes the ids stored with its kind, leavealltimer! clears |
| MsrpProperties.LeavingRefines | daemons/mrpd/msrp.c:416-641 | over every run the identities in LV equal the replayed set; a leave with news skips LV |
| MsrpProperties.StepView | daemons/mrpd/msrp.c:416-641 | an input that adds to LV leaves the timer running with expiry now + 1000; any other but leavetimer! leaves the timer alone; leavetimer! empties LV |
| MsrpProperties.LeaveTimerRuns | daemons/mrpd/msrp.c:520-535 | in every timed MSRP run the timer runs whenever an attribute is in LV |
| MsrpProperties.LeaveTimerNeverEarly | daemons/mrpd/msrp.c:520-535 | leavetimer! never finds an MSRP attribute that entered LV less than 1000 ms before |
| MsrpProperties.JoinTimerExact | daemons/mrpd/msrp.c:416-641 | after every input, exactly when the join timer runs |
| MsrpProperties.NoLostWakeup | daemons/mrpd/msrp.c:416-641 | every input but leavealltimer! keeps "something pending implies the join timer runs" |
| MsrpProperties.LeaveAllKeepsAwakeIff | daemons/mrpd/msrp.c:433-463 | leavealltimer! keeps it if and only if every applicant is in AN, QP, AP, AA or QA |
| MsrpProperties.LeaveAllCanLoseWakeup | daemons/mrpd/msrp.c:433-463 | after a Join and leavealltimer! something is pending without a timer |
| MsrpDatabase.Database.MergeInto | daemons/mrpd/msrp.c:304-411 | the in-place merge is the specified one, including the lookup of the talker for a listener that asked and failed |
| MsrpDatabase.Database.Handle | daemons/mrpd/msrp.c:416-664 | every input takes the heap database to the state that the transition system gives |
| StreamValues.TalkerRoundTrip | daemons/mrpd/msrp.c:2303-2350 | every field of a talker comes back from the 34 bytes of Failed, all but the failure information from the 25 of Advertise |
| MsrpRoundTrip.AdvanceCut | daemons/mrpd/msrp.c:2213-2229 | the receiver's increment of a first value matches the sender's increment of the whole attribute |
| MsrpRoundTrip.AdvanceFields | daemons/mrpd/msrp.c:692-707 | the next value of a vector: stream ID and destination address, or class and priority, one up, all else the same |
| MsrpRoundTrip.VectorsDecode | daemons/mrpd/msrp.c:1089-1356 | the vectors of a talker or listener message decode to the sent items, once each and in order, for any coalescing |
| MsrpMessages.ListLengthPasses | daemons/mrpd/msrp.c:709-765 | the list length that is emitted always passes the receiver's length and endmark checks |
| MsrpMessages.MessageRoundTrip | daemons/mrpd/msrp.c:864-1932 | wherever a message stands in a frame, the receiver takes the branch of its type byte and decodes at most one rLA! and the sent items, and parsing stops at its endmark |
| MsrpMessages.AmpleRoom | daemons/mrpd/msrp.c:2232-2549 | with ample room nothing is cut off and nothing overruns |
| MsrpMessages.NothingLost | daemons/mrpd/msrp.c:2400-2418 | every attribute marked for sending is among the selected items with its own value, event and substate |
| MsrpMessages.ListenerRoundTripIff | daemons/mrpd/msrp.c:2552-2916 | a listener message decodes to what was sent if and only if every sent substate is 1, 2 or 3 |
| MsrpMessages.ListenerCanBeIgnored | daemons/mrpd/msrp.c:3463-3478 | a listener declared with substate 0 is sent, and the receiver raises nothing for it |
| MsrpMessages.ScanInRange | daemons/mrpd/msrp.c:1089-1356 | whatever a listener message contains, only substates 1 to 3 are raised |
| MsrpMessages.ValuesConsecutive | daemons/mrpd/msrp.c:1402-1634 | whatever a talker or domain vector holds, each place in a byte in range raises one event, and these carry consecutive values |
| MsrpMessages.TalkersArrive | daemons/mrpd/msrp.c:1402-1634 | every talker marked for sending arrives, through the switch on the type byte, with its event and all its transmitted fields, with or without a LeaveAll |
| MsrpFrames.FrameRoundTrip | daemons/mrpd/msrp.c:2918-3010 | a frame, with any zero padding, is dispatched as at most one LeaveAll and one event per sent attribute for talker advertises, failed talkers, listeners and domains, in this order |
| MsrpFrames.FrameGoesOutIff | daemons/mrpd/msrp.c:2918-3010 | a frame goes out if and only if no emitter fails, something is to be sent and it takes at most 1999 bytes |
| MsrpFrames.DispatchValid | daemons/mrpd/msrp.c:767-1932 | no frame, well-formed or not, raises anything but LeaveAlls and network messages for well-formed attributes |
| MsrpCapacity.MessageGoesOutIff | daemons/mrpd/msrp.c:1934-2916 | a message goes out if and only if there is room for one vector and the last vector begun leaves room for the endmark; and its size |
| MsrpCapacity.SentIff | daemons/mrpd/msrp.c:1934-2916 | a mandatory attribute is sent if and only if the vectors before its own end in front of the limit of its kind |
| MsrpBytes.FrameBytes | daemons/mrpd/msrp.c:2918-3010 | the frame of a station that joins one talker, failed talker, listener or class, in literal bytes |
| MsrpBytes.ListenedTo | daemons/mrpd/msrp.c:709-765 | a message raises something only if its type is known, its length belongs to it and its list is long enough, inside the frame and followed by an endmark |
| MsrpBytes.ForeignFrameIgnored | daemons/mrpd/msrp.c:803-817 | a frame that is too short or not addressed to MSRP raises nothing |
| MsrpBytes.BadMessageEnds | daemons/mrpd/msrp.c:865-1930 | a frame that begins with an unknown type or a wrong length raises nothing |
| MsrpBytes.BadVectorEnds | daemons/mrpd/msrp.c:1089-1356 | a vector with more values than the frame holds ends the parsing; only its LeaveAll is taken |
| MsrpBytes.ShortMessageSkipped | daemons/mrpd/msrp.c:1069-1085 | a message with too short a list is passed over, and parsing resumes behind its one vector |
| MsrpStations.OffersEncodable | daemons/mrpd/msrp.c:1934-2916 | after tx! and txLA! every talker, listener and domain has a message the emitters can encode, so their "huh?" exits are unreachable |
| MsrpStations.FieldsBack | daemons/mrpd/msrp.c:1402-1634 | the attribute the receiver fills in is the sender's, but for the fields its kind of message does not carry |
| MsrpSender.SentDifferent | daemons/mrpd/msrp.c:1934-2916 | what a message carries was offered, and no stream or class ID is sent twice, however runs were coalesced |
| MsrpSelection.SelectedExactly | daemons/mrpd/msrp.c:2400-2418 | which attributes are selected: the mandatory ones, and the optional ones that a run from a mandatory one reaches |
| MsrpSelection.MandatoryIff | daemons/mrpd/mrp.c:627-791 | at tx! exactly the pending attributes are mandatory, at txLA! exactly the declared ones |
| MsrpSelection.WhatIsSaid | daemons/mrpd/msrp.c:2353-2392 | the event every offered attribute arrives as, given applicant and registrar state |
| MsrpSelection.QuietIsSilent | daemons/mrpd/msrp.c:490-520 | a station with nothing to send sends no frame at tx! |
| MsrpConvergence.Converges | daemons/mrpd/msrp.c:433-664 | from any two databases, every talker, listener and class that one announces at tx! or leavealltimer! is, after the other has received the frame, stored there as sent or merged field by field, and registered, with one exact exception |
| MsrpConvergence.AnnouncedCanBeLeaving | daemons/mrpd/msrp.c:2956-2970 | the exception occurs: a talker re-declared with leavealltimer! is left in its leave period |
| MsrpConvergence.ReceiveKeepsDeclared | daemons/mrpd/msrp.c:767-1932 | no frame, well-formed or not, changes what the receiver declares |
| Queue.MutualExclusion | daemons/mrpd/que.c:69-86 | at most one thread is in the critical section |
| Queue.NoOverwrite | daemons/mrpd/que.c:69-77 | a push writes only a slot whose value has been read |
| Queue.SafeNext | daemons/mrpd/que.c:69-92 | every atomic step of every thread keeps the token balance, the stored values and the order |
| Queue.QueueCorrect | daemons/mrpd/que.c:40-92 | under every interleaving values come out in the order they went in, unread slots are intact, and both semaphores plus the calls in flight sum to the capacity |
| Queue.CallsConserved | daemons/mrpd/que.c:69-92 | under every interleaving each push call enters its own value once and each pop call takes one |
| Queue.NoNeedlessWait | daemons/mrpd/que.c:69-92 | if no call can move, all callers push to a full queue or all pop from an empty one |
| Eui64.ReadWrite | daemons/common/eui64set.c:36-62 | reading what was written gives the same 64-bit value |
| Eui64.WriteRead | daemons/common/eui64set.c:36-62 | writing what was read gives the same bytes |
| Eui64.OrderAgrees | daemons/common/eui64set.c:64-76 | numeric order is byte-lexicographic order, for any number of bytes |
| Eui64Set.Index.Sort | daemons/common/eui64set.c:139-144 | sorts in place and permutes |
| Eui64Set.Index.Find | daemons/common/eui64set.c:157-168 | succeeds if and only if the ID is a member |
| Eui64Set.Index.InsertAndSort | daemons/common/eui64set.c:146-155 | adds the ID once if and only if there is room, and keeps the order |
| Eui64Set.Index.RemoveAndSort | daemons/common/eui64set.c:170-192 | removes exactly one copy of the ID by way of the all-ones sentinel, if and only if it is a member |
| Eui64Set.Replay | daemons/common/eui64set.c:126-192 | over any history the array is sorted and holds what a multiset would hold |
| Eui64Set.RefinesSet | daemons/mrpd/msrp.c:3757-3806 | without duplicate insertions, as the client commands ensure, the history gives a set |
| Eui64Set.DuplicateSurvives | daemons/common/eui64set.c:126-192 | with a duplicate, one removal leaves the ID in place |

## Left out

- MSRP codec in place: `MsrpCodec` models the MSRP emitters and receiver branches as functions from attributes to bytes and from bytes to events; buffer writes in place and the growing scratch arrays are not captured. The events of a received frame are handed to the database as a transition system (`MsrpStations.Receive`).
- MsrpConvergence.Converges: asks for a frame with room for everything (at most 1945 bytes by a safe count) and for listeners whose substate is 1, 2 or 3; what happens without room is stated per message in `MsrpCapacity`.
- MSRP pruning of uninteresting stream IDs, including the removal of talkers by the I-S command; the database is modelled with pruning off.
- MMRP wire codec: only the database is modelled.
- MmrpDatabase.Database.Handle: stores the applicant state but not its transmit flags, and sends no frame on tx and leavealltimer, since the MMRP emitters are not modelled.
- MsrpDatabase.Database.Handle: stores the applicant state but not its transmit flags, and sends no frame on tx and leavealltimer; what would be sent is the function `MsrpStations.OffersFor` of the attributes before the event.
- The machines of `mrp.c` are functions on their records; it is the database methods that store the results in place.
- Attribute events without an attribute, which no caller raises.
- Notifications to clients, the last MAC address kept for diagnostics, and all text commands, dumps and logging.
- The join and LeaveAll timers are modelled as running or not; only the leave timer has an expiry time. The random LeaveAll interval is not modelled.
- The sockets and the select loop of the daemon, which order the inputs; the model takes any order. The loop can report a timer as expired after it was re-armed in the same pass, which the assumption that timers do not fire early excludes.
- Eui64Set.Index.RemoveAndSort: does not model the payload of an entry, which the daemon never sets.
- Queue.QueueCorrect: takes entries as values and a capacity of at least one; the byte-wise copying of entries is not modelled.
- Registration and participant controls, which the daemon sets to normal and never reads.
- The time sync engine, examples, demos, the Windows and vendor ports, and the scripts of the repository.
