# Verification of the Kubernetes device runtime

A Dafny 4.11 model of the DRA and device-plugin runtime where it is hardest:
quantities and names, the ResourceSlice publisher, the container-metadata
store, the device-status publisher, Unix-socket startup, and the prepare
batches and health streams. It proves what they promise over every input,
every run and every interleaving. `dafny verify dfyconfig.toml` checks the
whole project.

## What is modelled

**Quantities** (`Decimal`, `Quantity`, `QuantityLaws`, `QuantityText`). Exact
decimals as a coefficient and a scale; parsing with rounding away from zero and
binary saturation; grouped printing. What is accepted, what it denotes and what
is printed are stated of the text itself, digit by digit and unit by unit. Canonical text decides numeric equality. The
print/parse round trip holds exactly when the exponent the printer recomputes
fits the 32 bits the parser accepts; `10000e2147483647` is accepted and prints
as `100e2147483649`, which is not.

**Names** (`Naming`, `Names`). FNV-1a as wrapping 64-bit arithmetic, with the
non-collision theorem the comments only call likely, for names that differ in
one byte; slice names, which are DNS labels.

**The ResourceSlice publisher** (`Slices`, `Canonical`, `Respelling`,
`Inventory`, `Identities`, `Desired`, `Acceptance`, `Advertised`, `TaintTimes`,
`Coherence`, `ApiServer`, `Publication`, `Publisher`, `Reconcile`,
`PublishOnce`, `Idempotence`, `Convergence`, `Settling`). The API server is an object holding a map from names to stored
slices, a log of every state it has been in, and a script of how each call
ends: refused, lost after it took effect, or served in some faithful spelling.
A publication is the code's own sequence of calls, which may end after any of
them. A ghost log records every reconcile that went as far as writing, with
the inventory it was given. Three results carry the part: in every state of
every run of publications the slices of one generation are all wanted by one
reconcile of the log, so that no two inventories are ever mixed
(`PublishOnce.PublishRounds`, `Coherence.NeverMixed`) and a reader who counts
slices sees one reconcile's inventory whole (`Coherence.ReaderSeesOneInventory`);
slices conserve the inventory, field by field and number by number
(`Advertised.BatchTells`, `Advertised.PublishedTells`); and a
published snapshot is settled whatever spelling the server keeps
(`Settling.PublishedIsSettled`, `Settling.AnyRespellingIsFaithful`).
The coherence invariant speaks of current slices, not of history: generations
start again at one after a pool is gone.

**Container metadata** (`Artifacts`, `Disk`, `StoreFiles`, `ClaimFiles`,
`Persist`, `CleanUp`, `MetadataFacts`, `MetadataPlan`, `PlanLaws`,
`PlanMeaning`, `PlanAcceptance`, `MetadataRuntime`, `Interleaving`,
`ClaimLocks`). The file system is a set of directories and
a map of files, changed by one atomic call at a time; a call may fail, and may
fail after taking effect; a process may be replaced between any two calls.
Persist and cleanup are the code's call sequences, and every state they pass
through is shown to be backed by a journal (`CleanUp.RunJobs`), for jobs on
different claims in any interleaving of their calls
(`Interleaving.InterleavingIsBacked`). The plan they
store is a function of the set of prepared results (`MetadataPlan.Build`,
`PlanLaws.OrderIsNotSeen`), and what it says is stated of the claim and the
results alone (`PlanMeaning.PlanMeans`), down to the file each container
mounts. The lock registry is a machine of interleaved
tasks: one mutex for each claim, and no circular wait.

**Claim device status** (`DeviceStatus`, `StatusProtocol`, `StatusPublisher`,
`StatusRace`). The
read, merge and patch loop against an API object that other writers change
between any two calls, where the patch replaces the whole device array as a
JSON merge patch does (section 2 of RFC 7396); and a machine of any number of
publishers in which no update is lost, of which the method is shown to be a
run (`StatusRace.StoryIsRun`).

**Unix-socket startup** (`UnixSocket`). Any number of processes taking the
advisory lock, binding, probing, unlinking and rebinding, each able to die
anywhere; and the startup method itself, run among them.

**Batches and health** (`ClaimBatch`, `HealthStream`). The prepare response
for any completion order and any preparer; the health forwarder between two
bounded channels.

`Wrappers`, `Text` and `Sorting` hold what these share.

## How the pieces meet

Methods follow the code's loops and calls and are proved against functions or
relations; lemmas prove what the code promises of those. Where the code works
on shared state, an object keeps a log of all its states, and a method's
contract says of every state it adds, not only of the last, that it is safe.
Success is stated separately: for each main method it is said when it succeeds
if nothing fails. Three facts found on the way. Recovery from any interrupted
run is not unconditional: a process that always has the same number, as in a
restarted container, and has died sixteen times behind the stage of one file
fails the next time it publishes that file (`Persist.SixteenCrashes`);
`Persist.PersistPlan` gives the exact condition, and fewer than sixteen
leftovers for each artifact never matter (`Persist.FewLeftoversPersist`). A
repeated claim uid in one prepare batch can lose an answer
(`ClaimBatch.AnsweredAloneExactlyWhen` gives the exact condition). And the
second base-name check while gathering metadata can never fail
(`MetadataFacts.MatchingBase`).

Where code and documentation differ, the model follows the code: the status
publisher's documentation speaks of entries that exactly match
(`dra/src/device_status.rs:216-217`), while the comparison takes absent and
empty conditions for the same (`dra/src/device_status.rs:472-473`).

## Model

| member | source | states |
|---|---|---|
| `Decimal.Normalize` | quantity/src/lib.rs:72-72 | The loop that strips trailing zeros computes the normal form. |
| `Decimal.NormalizedKeepsValue` | quantity/src/lib.rs:152-152 | Normalising never changes the number. |
| `Decimal.NormalFormUnique` | quantity/src/lib.rs:175-179 | Two normal forms of one number are the same coefficient and scale. |
| `Decimal.RoundedUpMeaning` | quantity/src/lib.rs:137-141 | Rounding at nano precision gives the multiple of 10^-9 of least magnitude that is at least as large in magnitude, with the sign kept. |
| `Quantity.FromStr` | quantity/src/lib.rs:96-155 | The cursor loops read exactly the literals of the grammar: optional sign, digits with an optional point, one of the SI, binary or exponent units. |
| `Quantity.PushZeros` | quantity/src/lib.rs:75-78 | The digit loop appends the zeros of the three-digit group. |
| `Quantity.FormatGroupsLoop` | quantity/src/lib.rs:72-89 | Digits, zeros and unit are assembled as grouped text. |
| `Quantity.FormatDecimalLoop` | quantity/src/lib.rs:68-90 | The imperative printer computes the specified text, zero included. |
| `Quantity.FindBinaryUnit` | quantity/src/lib.rs:164-169 | From Exbi down, the first binary unit that divides the amount. |
| `Quantity.Display` | quantity/src/lib.rs:159-172 | Printing chooses binary units for integral binary amounts and grouped text otherwise. |
| `Quantity.BinaryValueBounds` | quantity/src/lib.rs:160-163 | A valid integral binary amount is nonzero and fits a signed 64-bit integer: the conversion in the printer cannot fail. |
| `QuantityLaws.ParseValid` | quantity/src/lib.rs:137-154 | Every parsed value has at most nine decimals and a bounded binary amount, so neither conversion in the printer can fail. |
| `QuantityLaws.FromIntegerValid` | quantity/src/lib.rs:189-199 | Integers of any width convert exactly and can be printed. |
| `QuantityLaws.ParseMeaning` | quantity/src/lib.rs:117-154 | A parsed quantity is its literal's exact value, rounded away from zero to nano and, for binary units, clamped to the signed 64-bit magnitude with the sign kept. |
| `QuantityText.DecimalLadder` | quantity/src/lib.rs:17-17 | The empty unit is one and each unit from n to E is a thousand times the one before it. |
| `QuantityText.BinaryLadder` | quantity/src/lib.rs:18-18 | Ki is 1024 and each binary unit is 1024 times the one before it. |
| `QuantityText.TextDenotes` | quantity/src/lib.rs:96-118 | Sign, digits, point, digits and unit read as the number all the digits say over the power of ten of the digits behind the point. |
| `QuantityText.ParsedMeaning` | quantity/src/lib.rs:117-154 | For every such text: refused exactly when its exponent needs more than 32 bits; otherwise the number said in its unit, rounded away from zero to a billionth, binary amounts kept within 64 bits and those below one made decimal. |
| `QuantityText.AcceptedExactly` | quantity/src/lib.rs:96-135 | Accepted exactly when the text is a sign, digits around an optional point, and a unit of the tables or an exponent of at most 32 bits. |
| `QuantityText.HalfIsFiveHundredMilli` | quantity/src/lib.rs:31-33 | The documented example: 0.5 and 500m are both one half. |
| `QuantityText.PrintedForm` | quantity/src/lib.rs:64-90 | What is printed for every quantity: a whole binary amount in the largest unit that divides it, anything else as whole digits in the largest group of a thousand that keeps them whole, with that group's unit or exponent. |
| `QuantityLaws.NormalizedDecides` | quantity/src/lib.rs:175-179 | Equality of numbers is equality of normal forms, whatever the spelling. |
| `QuantityLaws.GroupedDigitsMeaning` | quantity/src/lib.rs:72-78 | The digits printed before a group denote the number at that group's scale. |
| `QuantityLaws.ReadFormatted` | quantity/src/lib.rs:68-90 | Grouped text reads back as the number and the unit it was printed from. |
| `QuantityLaws.SameTextSameNumber` | quantity/src/lib.rs:64-90 | Grouped printing is injective on numbers. |
| `QuantityLaws.CanonicalDecides` | quantity/src/lib.rs:61-66 | Two quantities have the same canonical decimal exactly when they are the same number. |
| `QuantityLaws.RoundTripDecimal` | quantity/src/lib.rs:68-90 | Decimal and exponent forms re-parse, as the same number in the printed unit's format, exactly when the printed exponent fits 32 bits. |
| `QuantityLaws.RoundTripBinary` | quantity/src/lib.rs:160-170 | Integral binary amounts re-parse to the very same quantity. |
| `QuantityLaws.RoundTrip` | quantity/src/lib.rs:158-172 | Printed text re-parses exactly when its recomputed exponent fits 32 bits; then it is the same number and prints as the same text. |
| `QuantityLaws.AcceptedButNotReprintable` | quantity/src/lib.rs:128-132 | A concrete input the parser accepts and the printer prints in a form the parser rejects. |
| `Naming.HashBytes` | core/src/socket_name.rs:35-41 | The fold over the bytes computes 64-bit FNV-1a with wrapping multiplication. |
| `Naming.XorBits` | core/src/socket_name.rs:39-39 | Exclusive or, bit by bit: a bit is set exactly where the operands differ. |
| `Naming.HashOfA` | core/src/socket_name.rs:35-41 | The published FNV-1a value of a single byte: basis, prime and order of the two operations are the algorithm's. |
| `Naming.CharIsUtf8` | core/src/socket_name.rs:20-20 | The bytes hashed for a character are its UTF-8 form (section 3 of RFC 3629). |
| `Naming.BytesDecide` | core/src/socket_name.rs:20-20 | The hashed bytes determine the name. |
| `Naming.HexMeaning` | core/src/socket_name.rs:20-20 | Sixteen lower-case hexadecimal digits, zero-padded, each the four bits of its place. |
| `Naming.UnmultiplyPrime` | core/src/socket_name.rs:36-39 | Multiplication by the FNV prime modulo 2^64 can be undone. |
| `Naming.StepInjective` | core/src/socket_name.rs:38-40 | One hash step is injective in the hash and in the byte. |
| `Naming.FoldInjective` | core/src/socket_name.rs:38-40 | Different hashes stay different under the same remaining bytes. |
| `Naming.OneByteChangesHash` | core/src/socket_name.rs:35-41 | Changing exactly one byte always changes the hash. |
| `Naming.HexInjective` | core/src/socket_name.rs:20-20 | The printed hexadecimal digits determine the hash. |
| `Naming.SanitizeSocketName` | core/src/socket_name.rs:18-29 | For every budget the result is at most that long and all safe characters; from 17 on it is as many first characters of the name as fit before 17, each unsafe one replaced by an underscore, and then the whole hash suffix. |
| `Naming.OneByteSeparatesNames` | core/src/socket_name.rs:8-14 | Names of equal byte length that differ in one byte never share a sanitized name for budgets of at least 17. |
| `Naming.SliceName` | dra/src/resourceslice.rs:28-36 | Slice names are at most 63 characters. |
| `Naming.SliceNameForm` | dra/src/resourceslice.rs:28-36 | A slice name is the index, then as much of driver, node and pool as fits, unsafe characters as dashes, then the hash of driver, node and pool in full. |
| `Naming.SliceNameIsLabel` | dra/src/resourceslice.rs:28-36 | For lower-case components every slice name is a DNS label of at most 63 characters. |
| `Naming.SliceNameInjective` | dra/src/resourceslice.rs:28-36 | Within a pool, slice names are distinct by index. |
| `Canonical.CanonicalizeDevices` | dra/src/resourceslice.rs:160-224 | The in-place pass over the devices computes their canonical list. |
| `Canonical.KeepsThrough` | dra/src/resourceslice.rs:564-574 | A slice rewritten from any canonically equal spelling is still a faithful form of the first one. |
| `Respelling.AbsorbTaints` | dra/src/resourceslice.rs:204-220 | Reordered or re-spelled taints have the same canonical list, absent times aside. |
| `Respelling.AbsorbDevices` | dra/src/resourceslice.rs:160-224 | Reordered devices with re-spelled fields have the same canonical list, absent taint times aside. |
| `Respelling.RespellingAbsorbed` | dra/src/resourceslice.rs:576-628 | The canonical form absorbs every re-spelling of a well-formed slice: reordered lists, empty for absent collections, numerically equal amounts. |
| `QuantityLaws.CanonicalTextDecides` | dra/src/resourceslice.rs:622-628 | On parseable text the canonical spelling identifies exactly the spellings of one number. |
| `Inventory.CheckTaints` | dra/src/resourceslice.rs:96-130 | Taints are accepted exactly when at most sixteen, with distinct key and effect, and representable times. |
| `Inventory.CheckDevice` | dra/src/resourceslice.rs:92-157 | A device is accepted exactly when its taints, consumptions and binding conditions are. |
| `Inventory.CheckNames` | dra/src/resourceslice.rs:431-439 | Comparing neighbours of the sorted list finds a duplicate name exactly when there is one. |
| `Inventory.WireDevices` | dra/src/resourceslice.rs:424-428 | Devices are projected in order, or the first invalid one stops the pool. |
| `Inventory.WireInventory` | dra/src/resourceslice.rs:421-439 | A pool is accepted exactly when every check holds, and then gives its canonical wire form; `Acceptance.AcceptedExactly` and `Advertised.BatchTells` say which pools and what form. |
| `Acceptance.AcceptedExactly` | dra/src/resourceslice.rs:92-157 | An inventory is accepted exactly when its own fields are within every limit, written out in numbers: taints, times, consumptions, counters, conditions, distinct names, and a defined counter behind every reference. |
| `Advertised.PrintSays` | dra/src/resourceslice.rs:78-78 | The text written for an amount reads back as exactly that amount's number. |
| `Advertised.WireShows` | dra/src/resourceslice.rs:42-157 | A device's wire form has its name, attributes, binding and taints as they are, and its amounts as texts of the same numbers: nothing dropped, added or changed. |
| `Advertised.KeptShows` | dra/src/resourceslice.rs:564-628 | However the server re-spells a written device, as long as it compares as the same it still tells every field of the inventory's device. |
| `Inventory.WireIgnoresOrder` | dra/src/resourceslice.rs:421-439 | A reordered inventory is accepted exactly when the original is, and has the same wire form. |
| `Identities.PublisherNamesSeparate` | dra/src/resourceslice.rs:28-36 | The publisher's slice names never repeat within a pool. |
| `Identities.PublisherLawful` | dra/src/resourceslice.rs:564-620 | The code's names, canonical form and comparison satisfy every law the publication proofs use. |
| `Desired.IndexDevices` | dra/src/resourceslice.rs:232-242 | One walk keeps, for each device name, the first stored device at the highest generation. |
| `Desired.PreserveTaintTimes` | dra/src/resourceslice.rs:228-260 | Absent taint times are taken from the same taint of the newest stored device, in place. |
| `Desired.PreservedIsFilled` | dra/src/resourceslice.rs:243-259 | Preserving times changes nothing but absent taint times. |
| `TaintTimes.PreservedIsTimed` | dra/src/resourceslice.rs:228-260 | Each published taint has the time it was given, or else that of the first stored taint of its key, effect and value, on the first stored device of its name at the highest generation; none where there is none. Nothing else changes. |
| `TaintTimes.BatchIsTimed` | dra/src/resourceslice.rs:445-465 | So for every device of the batch that is written. |
| `Desired.Drain` | dra/src/resourceslice.rs:454-465 | Draining an iterator chunk by chunk computes the chunks. |
| `Desired.ChunksConserve` | dra/src/resourceslice.rs:454-465 | Chunks concatenate to the list they were cut from; none is empty or too long. |
| `Desired.Batch` | dra/src/resourceslice.rs:469-493 | Every slice of a pool carries the pool, the generation, the slice count, the driver and the node. |
| `Desired.BatchHolds` | dra/src/resourceslice.rs:441-493 | A pool's slices hold its devices and its counter sets exactly once, in order. |
| `Desired.BatchWithinLimits` | dra/src/resourceslice.rs:446-465 | No slice is empty, mixes devices with counter sets, or exceeds 64, 128 or 8 entries; a further slice is begun only when the one before is full. |
| `Desired.PublicationConserves` | dra/src/resourceslice.rs:421-493 | The slices hold exactly the name-sorted inventory, changed in absent taint times only, within the limits and with every counter reference resolved in the pool. |
| `Advertised.BatchTells` | dra/src/resourceslice.rs:421-493 | Field by field from the inventory: exactly one written device for each device, with its attributes, binding, taints and consumptions, and every capacity and counter the same number; exactly one written set for each set; in full slices of at most 64, 128 or 8 entries. |
| `Advertised.PublishedTells` | dra/src/resourceslice.rs:330-393 | After a successful publication the slices stored for each pool tell exactly its inventory, field by field, in whatever spelling the server keeps. |
| `Desired.PoolGeneration` | dra/src/resourceslice.rs:630-673 | An unchanged pool keeps its generation; any other gets the one after the highest in use, or 1; refused only when the highest is the last. |
| `Coherence.PartialCoherent` | dra/src/resourceslice.rs:495-523 | Any partly written batch of a logged reconcile leaves every generation of every pool covered by the batch of one logged reconcile. |
| `Coherence.NeverMixed` | dra/src/resourceslice.rs:480-523 | Any two slices visible at one generation, however few of their batch are, are both wanted by one single reconcile that was begun. |
| `Coherence.ReaderSeesOneInventory` | dra/src/resourceslice.rs:480-487 | A reader who waits for the announced slice count at the generation sees the complete batch of one reconcile that was begun, with the inventory that reconcile was given. |
| `ApiServer.Server.List` | dra/src/resourceslice.rs:332-348 | Listing returns exactly this driver's and node's slices. |
| `ApiServer.Server.Create` | dra/src/resourceslice.rs:519-521 | A creation stores a faithful spelling under a free name, or changes nothing. |
| `ApiServer.Server.Replace` | dra/src/resourceslice.rs:514-518 | A replacement is conditional on the version that was read and keeps the slice's uid. |
| `ApiServer.Server.Delete` | dra/src/resourceslice.rs:381-390 | A deletion is conditional on uid and version; a slice already gone counts as deleted. |
| `Publication.EntriesUnique` | dra/src/resourceslice.rs:441-444 | A listing determines the pool's entries and their order. |
| `Publication.UnchangedIsComplete` | dra/src/resourceslice.rs:654-664 | When a pool counts as unchanged, every wanted slice is listed with its own content. |
| `Publication.PlacedElsewhere` | dra/src/resourceslice.rs:350-359 | Publishing one pool leaves every other pool in place. |
| `Publication.ClearToCreate` | dra/src/resourceslice.rs:503-522 | Where no foreign slice holds a pool's names, every creation finds its name free. |
| `Publisher.PoolEntries` | dra/src/resourceslice.rs:441-444 | The pool's listed slices, all of them and in name order. |
| `Publisher.DesiredSlices` | dra/src/resourceslice.rs:445-493 | The chunk loops build exactly the wanted batch. |
| `Publisher.WriteSlice` | dra/src/resourceslice.rs:512-522 | A slice is left alone when it matches, replaced when listed and created otherwise; success means it is stored faithfully. |
| `Publisher.WriteAt` | dra/src/resourceslice.rs:495-523 | One slice more of the batch, or a partly written batch. |
| `Publisher.WriteBatch` | dra/src/resourceslice.rs:495-523 | However far the writes get, the state is the old one with some of the batch written; success means all of it. |
| `Reconcile.FreshIsCovered` | dra/src/resourceslice.rs:669-672 | A new generation starts with no slices of its own, so the reconcile that chose it covers it. |
| `Reconcile.UnchangedIsCovered` | dra/src/resourceslice.rs:654-667 | A kept generation is still covered by the logged reconcile that first wrote it, which serves every write of the new one. |
| `Reconcile.SettledIsMatched` | dra/src/resourceslice.rs:564-574 | When all contents are as wanted every slice matches and none of the pool is left over. |
| `Reconcile.Exhausted` | dra/src/resourceslice.rs:669-672 | The generation runs out only when a slice already holds the last one. |
| `Reconcile.ChoosePool` | dra/src/resourceslice.rs:421-494 | From the listing alone: refused for an invalid inventory, too many slices or no generation left; otherwise the wanted batch and its generation; a pool with nothing to do is never refused. |
| `Reconcile.WriteDesired` | dra/src/resourceslice.rs:494-525 | The reconcile is begun here, at a generation above all listed or the one all listed slices have; every prefix of its writes is covered by one logged reconcile. |
| `Reconcile.ReconcilePool` | dra/src/resourceslice.rs:413-525 | Every state on the way is explained by the reconciles begun, of which the only new one is this pool's with this inventory, and touches this pool only; an invalid inventory or a settled pool writes nothing; success leaves the pool as its batch. |
| `PublishOnce.DeleteLeftover` | dra/src/resourceslice.rs:363-391 | A leftover is deleted under its own uid and version, never without them. |
| `PublishOnce.DeleteLeftovers` | dra/src/resourceslice.rs:361-391 | Deleting leftovers one by one keeps every published pool in place and every state explained by what was begun. |
| `PublishOnce.PublishPools` | dra/src/resourceslice.rs:350-359 | Pool after pool, until each is its batch; every state on the way is explained by the reconciles begun, the only new ones being of this snapshot's pools with this snapshot's inventories. |
| `PublishOnce.Publish` | dra/src/resourceslice.rs:330-393 | Every prefix of the calls leaves foreign slices alone and each generation covered by one reconcile begun, the only new ones being this snapshot's; success means exactly the snapshot is published, each pool telling its inventory field by field; from a settled state nothing is written; a healthy server makes it succeed. |
| `PublishOnce.PublishRounds` | dra/src/resourceslice.rs:529-552 | Over any run of publications of changing inventories, each cut off anywhere: every state of a round is explained by the reconciles begun by its end, and each round adds only reconciles of its own snapshot's pools with its own snapshot's inventories, so no state mixes two of them; a round that succeeds leaves every pool telling its inventory field by field. |
| `Idempotence.WiredCanonical` | dra/src/resourceslice.rs:160-224 | Every wanted device is already canonical, in name order and unique. |
| `Idempotence.CanonicalList` | dra/src/resourceslice.rs:160-224 | Canonicalising a canonical list changes nothing. |
| `Convergence.DeviceSettles` | dra/src/resourceslice.rs:243-259 | Times taken from any faithful stored form of a device reproduce that form. |
| `Convergence.WantedSettles` | dra/src/resourceslice.rs:228-260 | Device by device, the next reconcile wants exactly what the slices store. |
| `Settling.PoolSettles` | dra/src/resourceslice.rs:630-667 | A published pool has nothing to write for the same inventory in any order. |
| `Settling.PublishedIsSettled` | dra/src/resourceslice.rs:330-393 | Convergence: after a publication, the next one of the same inventories, in any order, issues no call that writes. |
| `Settling.BatchWellFormed` | dra/src/resourceslice.rs:421-493 | Every slice that is written has the distinct keys the canonical form needs. |
| `Settling.AnyRespellingIsFaithful` | dra/src/resourceslice.rs:576-620 | Whatever re-spelling of a written slice the server returns counts as faithfully stored. |
| `Inventory.CheckConsumptions` | dra/src/resourceslice/counters.rs:73-105 | Consumptions are accepted exactly when at most two, naming distinct sets, with 1 to 32 counters of valid names. |
| `Inventory.CheckSets` | dra/src/resourceslice/counters.rs:48-71 | Counter sets are accepted exactly when their names are valid and distinct and their counters valid. |
| `Inventory.IndexSets` | dra/src/resourceslice/counters.rs:112-115 | The table of sets finds every set under its name. |
| `Inventory.CheckReferences` | dra/src/resourceslice/counters.rs:107-138 | References are accepted exactly when every consumed counter is defined by a set of the pool. |
| `Artifacts.SameFields` | dra/src/metadata/store.rs:156-158 | A spec's name determines its driver, claim and request. |
| `Artifacts.PathsBelow` | dra/src/metadata/store.rs:156-179 | Where journal, document and spec lie below their roots, directory by directory. |
| `Artifacts.NameDecides` | dra/src/metadata/store.rs:94-98 | Within a directory no two files, published or staged, share a name. |
| `Artifacts.PrefixSelects` | dra/src/metadata/store.rs:143-155 | A staging prefix selects exactly one artifact's own stages, and never a published file. |
| `Disk.StepKeepsPlaces` | dra/src/metadata/store.rs:36-51 | No call leaves a file outside an existing directory. |
| `Disk.Volume.Apply` | dra/src/metadata/store.rs:75-142 | One call takes effect as a whole or not at all; a failed call may still have taken effect. |
| `Disk.Volume.Read` | dra/src/metadata/store.rs:52-73 | An unfinished or oversized file does not read as anything. |
| `Disk.Volume.Serial` | dra/src/metadata/store.rs:94-98 | Staging names never repeat within a process. |
| `StoreFiles.CreateFreshStage` | dra/src/metadata/store.rs:88-109 | At most sixteen names are tried. Undisturbed, a stage is made exactly when the directory is there and one of the next sixteen serials is free at the place, and it takes the first free one. |
| `StoreFiles.FewLeftovers` | dra/src/metadata/store.rs:88-109 | Fewer than sixteen leftovers of this process's number at each place never stop a sequence of publications. |
| `StoreFiles.FreshAdmits` | dra/src/metadata/store.rs:94-98 | Leftovers whose serials this process has already passed never stop one either. |
| `StoreFiles.PublishStage` | dra/src/metadata/store.rs:110-124 | The stage is filled before it is linked, and a link never replaces a file. |
| `StoreFiles.PublishAndUnstage` | dra/src/metadata/store.rs:110-126 | The stage is unlinked whether or not it was published. |
| `StoreFiles.EnsureFile` | dra/src/metadata/store.rs:75-127 | At every step the name shows nothing or the whole content; different content already there is never replaced. Undisturbed, it succeeds exactly when the content is short enough and either there already or stageable in the next sixteen serials. |
| `StoreFiles.RemoveStages` | dra/src/metadata/store.rs:143-155 | Exactly the place's own stages are removed. |
| `ClaimFiles.StateIsBacked` | dra/src/metadata/store.rs:161-184 | In every allowed state a visible spec has its journal and all its documents behind it, whole, and a visible document has its journal. |
| `ClaimFiles.JournaledPublish` | dra/src/metadata/store.rs:176-181 | Publishing a planned artifact keeps the invariant; a spec waits for every document. |
| `ClaimFiles.CleanPublish` | dra/src/metadata/store.rs:167-170 | The journal appears whole or not at all. |
| `Persist.EnsureDir` | dra/src/metadata/store.rs:36-51 | Making a directory that exists changes nothing. |
| `Persist.OpenClaim` | dra/src/metadata/store.rs:162-166 | Opening the roots and the claim's directory keeps the claim's state. |
| `Persist.PublishJournal` | dra/src/metadata/store.rs:167-170 | The journal comes first and a different one is never replaced. Undisturbed, it is recorded exactly when no other plan is, it is not too long, and a stage can be made. |
| `Persist.PublishArtifact` | dra/src/metadata/store.rs:171-181 | An artifact is published whole and its stages removed, through safe states; undisturbed, exactly when it is short enough and there already or stageable. |
| `Persist.PublishDocuments` | dra/src/metadata/store.rs:171-175 | Documents are finished one by one in request order, through safe states; undisturbed, exactly when none is too long and each can be staged when its turn comes. |
| `Persist.PublishSpecs` | dra/src/metadata/store.rs:176-181 | Specs are finished one by one in request order, through safe states; undisturbed, exactly when none is too long and each can be staged when its turn comes. |
| `Persist.PublishAllSpecs` | dra/src/metadata/store.rs:176-181 | The first CDI reference becomes visible only when every document is there; undisturbed, all become visible exactly when none is too long and each can be staged. |
| `Persist.FinishJournal` | dra/src/metadata/store.rs:182-183 | Stages of earlier journal attempts go last. |
| `Persist.PublishedExactly` | dra/src/metadata/store.rs:161-184 | A published claim owns exactly its planned files with exactly the planned bytes, and no stages. |
| `Persist.PersistPlan` | dra/src/metadata/store.rs:161-184 | From any interrupted state, through backed states only, touching this claim only; success leaves exactly the plan; publishing a published plan changes nothing. Undisturbed, it succeeds if and only if no other plan is recorded, nothing is too long, and each artifact not there yet finds one of the sixteen staging names it will try free. |
| `Persist.FewLeftoversPersist` | dra/src/metadata/store.rs:88-109 | Fewer than sixteen leftovers of this process's number for each artifact never stop a plan. |
| `Persist.SixteenCrashes` | dra/src/metadata/store.rs:88-109 | The input where recovery fails: after sixteen crashes of one process number just behind the journal's stage, the next undisturbed persist of the claim fails. |
| `CleanUp.RemoveFile` | dra/src/metadata/store.rs:128-142 | A file already missing counts as removed. |
| `CleanUp.RemoveAsPlanned` | dra/src/metadata/store.rs:232-238 | A spec that no longer reads as planned stops the cleanup and is kept. |
| `CleanUp.RemoveSpecs` | dra/src/metadata/store.rs:229-241 | References go one by one, with their stages. |
| `CleanUp.RemoveDocuments` | dra/src/metadata/store.rs:242-253 | Documents, their stages and their directories go one by one. |
| `CleanUp.NoReferencesLeft` | dra/src/metadata/store.rs:227-241 | When every planned reference is gone, none of the claim's is left. |
| `CleanUp.RemoveEmptyClaim` | dra/src/metadata/store.rs:203-208 | What a crash after removing the journal leaves is removed. |
| `CleanUp.JournalGoesLast` | dra/src/metadata/store.rs:254-272 | The journal goes only once nothing refers to it and nothing else is left. |
| `CleanUp.RemoveRecorded` | dra/src/metadata/store.rs:227-272 | References, then documents, then the journal, through backed states only. |
| `CleanUp.ActionableIsWellFormed` | dra/src/metadata/store.rs:209-226 | A journal is acted on exactly when its version, driver, identity and request names are this claim's. |
| `CleanUp.JournalRead` | dra/src/metadata/store.rs:203-226 | In every allowed state a readable journal decodes to the plan on disk. |
| `CleanUp.RemovableOrBarred` | dra/src/metadata/store.rs:209-226 | In every state an interrupted run may leave, the clean-up is barred exactly when the journal on disk is another claim's. |
| `CleanUp.CleanUpClaim` | dra/src/metadata/store.rs:186-273 | From any interrupted state, through backed states only, touching this claim only; success leaves nothing of the claim; cleaning a clean claim changes nothing; a journal that is unreadable or of another version, driver, claim or request list stops it before anything is touched; undisturbed it succeeds exactly when the journal is this claim's own or there is none. |
| `CleanUp.OtherClaimKept` | dra/src/metadata/store.rs:228-241 | What is done to one claim is invisible to every other claim and driver. |
| `CleanUp.RunJobs` | dra/src/metadata/store.rs:161-273 | Over any sequence of persists, cleanups, crashes and restarts of any drivers and claims, no state shows a reference without its journal and documents. |
| `Interleaving.ViewDecides` | dra/src/metadata/store.rs:161-273 | Whether a claim is in a state an interrupted run may leave is decided by the claim's own files and directories. |
| `Interleaving.StepIsLocal` | dra/src/metadata/store.rs:36-155 | A call on a claim's own files is answered, and changes the claim, as on any tree that agrees on the claim. |
| `Interleaving.EachIsAlone` | dra/src/metadata/store.rs:161-273 | However the calls of workers on different claims interleave, each finds its claim as if it were alone. |
| `Interleaving.AnsweredAsAlone` | dra/src/metadata/store.rs:161-273 | At any point of any interleaving the next call of each worker is answered as if it were alone. |
| `Interleaving.InterleavingIsBacked` | dra/src/metadata/store.rs:161-273 | No interleaving of calls shows a reference or document that is not backed, if none of the workers would on its own. |
| `MetadataRuntime.Publish` | dra/src/metadata.rs:90-105 | Refused results touch nothing; success means the store shows exactly what the results plan: each document, spec and journal is in its place and says what `PlanMeaning.PlanMeans` states; undisturbed, storing succeeds exactly when the plan can be persisted. |
| `Names.LabelForm` | dra/src/metadata.rs:149-157 | A label is a letter or digit at either end and letters, digits and dashes between, within its limit. |
| `Names.SubdomainForm` | dra/src/metadata.rs:159-161 | A subdomain is labels joined by dots, within its limit. |
| `Names.PoolNameForm` | core/src/validation.rs:67-72 | A pool name is subdomains joined by slashes, of at most 253 characters in all. |
| `MetadataFacts.RefForm` | dra/src/metadata.rs:163-169 | An accepted reference is a label, or a label and a subrequest label around one slash. |
| `MetadataFacts.MatchingBase` | dra/src/metadata.rs:312-335 | A matching allocation always names the same base request: the code's second check cannot fail. |
| `MetadataFacts.AllocationMatches` | dra/src/metadata.rs:312-320 | Every local allocation answers the base of the request it names. |
| `MetadataFacts.Record` | dra/src/metadata.rs:336-356 | One more allocation is refused exactly when it contradicts what is gathered, and recorded otherwise. |
| `MetadataFacts.RecordRequest` | dra/src/metadata.rs:312-358 | All allocations that answer one request are recorded, or one contradicts. |
| `MetadataPlan.CheckAllocations` | dra/src/metadata.rs:250-266 | Accepted exactly when every local allocation names a declared request and, if any, an offered subrequest. |
| `MetadataPlan.CheckClaim` | dra/src/metadata.rs:207-271 | Accepted exactly when identity, annotation, request names and local allocations are, and nothing is shared. |
| `MetadataPlan.Answer` | dra/src/metadata.rs:307-331 | A named request must be declared, and allocated here unless every request was meant. |
| `MetadataPlan.RecordRequests` | dra/src/metadata.rs:301-359 | All a device is asked for is recorded, and the bases with allocations are collected. |
| `MetadataPlan.RecordDevice` | dra/src/metadata.rs:278-371 | A device is refused exactly when unacceptable or contradicted; kubelet's copy has stripped, deduplicated request names. |
| `MetadataPlan.RecordDevices` | dra/src/metadata.rs:278-371 | All devices are accepted and agree exactly when none is refused. |
| `MetadataPlan.FirstKey` | dra/src/metadata.rs:375-379 | The representative is the least pool and device. |
| `MetadataPlan.WriteArtifacts` | dra/src/metadata.rs:372-441 | One document, one spec and one metadata entry for each request, in request order. |
| `MetadataPlan.Build` | dra/src/metadata.rs:202-448 | A plan exactly when the claim and every result are acceptable and no two results disagree, and then the plan those results determine as a set. |
| `PlanAcceptance.PlannedExactly` | dra/src/metadata.rs:202-358 | Which results are planned, said of claim and results alone: a sound claim, every device named, readable and allocated as it says, one alternative and one set of attributes for each request and device. |
| `PlanMeaning.PlanMeans` | dra/src/metadata.rs:272-441 | Exactly the requests some prepared device serves are documented; each document lists exactly those devices with their own attributes, driver, name and pool; each spec mounts, from the file the store publishes for that request, to where containers look for it; kind, equals sign and name of the spec are the identifier in the request's own entry; every device is handed on with its pool, name and identifiers. |
| `PlanMeaning.PublishedIsOnDisk` | dra/src/metadata/store.rs:161-184 | A published plan's documents, specs and journal are each at their place with the planned text: every mount has its source. |
| `PlanLaws.EveryDeviceIsBacked` | dra/src/metadata.rs:312-356 | Every documented device is one of the results and is allocated by this driver to that very request. |
| `PlanLaws.NoAllocationIsMissed` | dra/src/metadata.rs:301-327 | No local allocation of a prepared device is missing from its request's document. |
| `PlanLaws.IdDecides` | dra/src/metadata.rs:398-440 | A CDI identifier names one driver, one claim and one request. |
| `PlanLaws.MountDecides` | dra/src/metadata.rs:405-415 | In one pod, no two documents share a mount path. |
| `PlanLaws.PlanIsValid` | dra/src/metadata.rs:372-441 | Documents and specs have the same keys, all labels: the store accepts every plan. |
| `PlanLaws.RequestSelectsItsOwn` | dra/src/metadata.rs:435-440 | Each documented request selects exactly its own metadata entry and no other request's. |
| `PlanLaws.OrderIsNotSeen` | dra/src/metadata.rs:272-441 | Results in any order, however repeated, give the same documents, specs and metadata entries. |
| `ClaimLocks.OneMutexPerClaim` | dra/src/metadata.rs:127-139 | Two tasks never use distinct mutexes for one claim, and never both hold it. |
| `ClaimLocks.NeverDeadlocked` | dra/src/metadata.rs:121-142 | In every reachable state with a task locking, some task can move or has all its locks. |
| `ClaimLocks.EveryWaitEnds` | dra/src/metadata.rs:121-142 | No wait is circular: in every reachable state whoever waits heads a chain of holders, none twice, that ends in a task that can move or has all its locks. |
| `ClaimLocks.HolderMoves` | dra/src/metadata.rs:122-139 | Whoever holds what a task waits for can move, or waits for a strictly later claim. |
| `ClaimLocks.RunKeeps` | dra/src/metadata.rs:121-142 | Over every interleaving the registry holds the mutex of every claim in use. |
| `ClaimLocks.Registry.LockNext` | dra/src/metadata.rs:127-139 | The registry is cleared of dead entries, looked up, and the mutex awaited, among everybody else's moves. |
| `ClaimLocks.Registry.LockClaims` | dra/src/metadata.rs:121-142 | A batch is locked once per claim, in increasing order. |
| `DeviceStatus.DesiredStatuses` | dra/src/device_status.rs:379-395 | Reports are gathered exactly when each is within bounds and no key repeats. |
| `DeviceStatus.ValidateAllocations` | dra/src/device_status.rs:397-438 | Publication is allowed exactly when every reported device is allocated to this driver. |
| `DeviceStatus.MergeExistingFields` | dra/src/device_status.rs:345-377 | One walk over the stored list keeps every field the report leaves out. |
| `DeviceStatus.StatusesAreCurrent` | dra/src/device_status.rs:440-477 | Nothing to patch exactly when the stored entries already say what is wanted. |
| `DeviceStatus.Upsert` | dra/src/device_status.rs:298-314 | Every desired entry is replaced where it stood or appended; every other entry and its place are kept; keys stay unique. |
| `StatusPublisher.ClaimApi.Patch` | dra/src/device_status.rs:320-341 | A patch applies only to the version it names, and replaces the whole list. |
| `StatusPublisher.Attempt` | dra/src/device_status.rs:263-342 | One attempt reads, checks, merges and sends at most one patch; it is a run of the publisher's protocol among others' changes. |
| `StatusPublisher.Decide` | dra/src/device_status.rs:268-342 | What was read is refused, found current, or patched; each is the protocol's own step from the claim as read. |
| `StatusPublisher.SendPatch` | dra/src/device_status.rs:289-341 | A patch is built from the claim just read and carries nothing but this publisher's upsert. |
| `StatusPublisher.PublishDesired` | dra/src/device_status.rs:261-343 | Conflicts are re-read and re-checked, at most three patches in all; all attempts together are one run of the publisher's protocol, ending as the result says. |
| `StatusPublisher.PublishInner` | dra/src/device_status.rs:243-343 | Every applied patch was built from a claim that passed the identity and allocation checks and had not changed since; success leaves, for each report, one entry of this driver and key with the report's own data, network data and conditions, or each of them the report names when published by field; undisturbed, it patches exactly when some report does not stand yet. |
| `StatusPublisher.CurrentWhenAllStand` | dra/src/device_status.rs:440-477 | There is nothing to patch exactly when every report already stands in the claim, field by field. |
| `StatusPublisher.PublishedStands` | dra/src/device_status.rs:94-102 | What a successful publication stored says what the reports say, each payload in its own field. |
| `StatusPublisher.AskedKeys` | dra/src/device_status.rs:248-258 | Every report is asked for under its key; by field, only those that name one. |
| `StatusRace.PatchView` | dra/src/device_status.rs:280-314 | A patch changes exactly the cells it writes. |
| `StatusRace.RunKeeps` | dra/src/device_status.rs:261-343 | Over every interleaving what a publisher holds is the claim itself while its version stands. |
| `StatusRace.NoLostUpdate` | dra/src/device_status.rs:261-343 | No interleaving of publishers with disjoint cells loses an update; at most three patches each; keys stay unique. |
| `StatusRace.UntouchedEntries` | dra/src/device_status.rs:298-314 | No publisher's step changes an entry it was not asked about. |
| `StatusRace.PatchesAreChecked` | dra/src/device_status.rs:269-287 | A patch lands only on a claim that passes the publisher's own checks. |
| `StatusRace.OwnStepIsStep` | dra/src/device_status.rs:261-343 | From every state of the race that shows a publisher its claim, each step of its protocol can be taken. |
| `StatusRace.StoryIsRun` | dra/src/device_status.rs:261-343 | What the publishing method does, with whatever others do meanwhile, is a run of the race. |
| `StatusRace.PublishedStands` | dra/src/device_status.rs:261-343 | A publication that ends in success leaves its values in the claim, if others leave its cells alone. |
| `UnixSocket.StepKeeps` | core/src/unix_socket.rs:28-79 | Every step of every process, dying included, keeps the invariant. |
| `UnixSocket.AtMostOneOwner` | core/src/unix_socket.rs:28-51 | At most one process listens, and the path is its. |
| `UnixSocket.LivePathStays` | core/src/unix_socket.rs:53-79 | No step unlinks or replaces the path of a live listener. |
| `UnixSocket.OwnerKeepsPath` | core/src/unix_socket.rs:28-79 | In every run a live listener keeps its path as long as it lives. |
| `UnixSocket.StepsAreRun` | core/src/unix_socket.rs:28-79 | What a startup method does among the others is a run, so the run results hold of it. |
| `UnixSocket.RecoverOrRefuse` | core/src/unix_socket.rs:53-79 | A peer that answers is left alone; only a refused connection lets the path be unlinked. |
| `UnixSocket.ReplaceStale` | core/src/unix_socket.rs:62-70 | A stale or vanished path is bound anew. |
| `UnixSocket.BindLocked` | core/src/unix_socket.rs:42-50 | Holding the lock: served, refused for a peer seen alive, or failed. |
| `UnixSocket.BindUnixListener` | core/src/unix_socket.rs:28-51 | Success means listening on the path; a refusal means a live peer was seen there; undisturbed, it starts exactly when no live listener has the path; the lock is never kept. |
| `ClaimBatch.ResolveContext` | dra/src/claim.rs:96-122 | Transient read failures are retried, at most the configured number of reads in all; the last read decides, and resolves exactly when it is the claim asked for, allocated, with nothing of this driver's shared. |
| `ClaimBatch.ResolvedIsAllocated` | dra/src/claim.rs:124-169 | A claim resolves exactly when it has the requested uid, is allocated, and shares nothing of this driver's; then its devices are this driver's allocations, one for each, in order, field by field; otherwise the first obstacle is named. |
| `ClaimBatch.CompletionOrderIsNotSeen` | dra/src/claim.rs:187-204 | Whatever order the reads finish in, results come out in request order. |
| `ClaimBatch.Collect` | dra/src/service.rs:241-250 | Errors by claim; and the preparer is handed one value for each claim that resolved, in request order. |
| `ClaimBatch.SuccessesHandOver` | dra/src/service.rs:241-250 | The list handed over has one element for each result that resolved, at the number of those before it. |
| `ClaimBatch.Respond` | dra/src/service.rs:262-282 | The removal loop hands out each error and each prepared result once. |
| `ClaimBatch.NodePrepareResources` | dra/src/service.rs:207-287 | For any completion order and any preparer, the response is determined by the requests, their outcomes and the preparer's map; a preparer that answers each claim from its own value has, with distinct uids, each answer delivered to the claim it was made for. |
| `ClaimBatch.RespondPublishing` | dra/src/service.rs:139-159 | With metadata, each claim's files are published as its turn comes, from its own object and devices. |
| `ClaimBatch.PrepareMetadata` | dra/src/service.rs:118-160 | The same response law with metadata publication in between: with distinct uids each resolved claim gets the outcome of publishing its own object with the preparer's answer to its own value. |
| `ClaimBatch.EveryRequestIsAnswered` | dra/src/service.rs:265-282 | The response has exactly the requested uids as keys. |
| `ClaimBatch.LastRequestAnswers` | dra/src/service.rs:262-282 | A uid's entry is that of its last request. |
| `ClaimBatch.EachClaimIsAnsweredAlone` | dra/src/service.rs:252-282 | With distinct uids each entry is the claim's own error, its own prepared result, or the fallback. |
| `ClaimBatch.EachClaimIsPublishedAlone` | dra/src/service.rs:140-157 | With metadata, a prepared claim's entry is the outcome of publishing its own object with its own devices. |
| `ClaimBatch.AnsweredAloneExactlyWhen` | dra/src/service.rs:252-282 | Every request is sure of its own answer, whatever the preparer returns, if and only if any two requests of one uid both fail to resolve with equal errors and the last of the uid does not repeat an earlier request. |
| `ClaimBatch.ResolvedAnsweredAloneExactlyWhen` | dra/src/service.rs:252-282 | For claims that all resolve, that is exactly when no two share a uid. |
| `HealthStream.RunKeeps` | dra/src/resource_health.rs:55-107 | Over every schedule of reporter, forwarder and client the invariant holds. |
| `HealthStream.DeliveredIsAPrefix` | dra/src/resource_health.rs:70-104 | What the client received is a prefix, in order, of the reports sent, then at most one final status. |
| `HealthStream.WholeStream` | dra/src/resource_health.rs:93-104 | A client that stays to the end has every report once and in order, then exactly one final status, unless a report came late. |
| `HealthStream.AnyStreamCanHappen` | dra/src/resource_health.rs:55-107 | Any list of reports can be sent and delivered: some schedule takes it whole, to the final status. |
| `HealthStream.NeverLate` | dra/src/resource_health.rs:55-61 | Without a leaked sender no report comes late. |
| `HealthStream.ReporterIsNotLeftBehind` | dra/src/resource_health.rs:65-91 | The forwarder never stops while the reporter runs, and both channels stay bounded. |
| `HealthStream.MovesProgress` | dra/src/resource_health.rs:63-106 | Once the reporter is done, every step of forwarder or client brings the end nearer. |
| `HealthStream.NeverStuck` | dra/src/resource_health.rs:63-106 | Until everything is delivered, forwarder or client can move. |
| `HealthStream.EveryStreamEnds` | dra/src/resource_health.rs:93-151 | Once the reporter is done, every way of going on is finite, and where it stops the stream is whole. |
| `HealthStream.EveryLeaverIsNoticed` | dra/src/resource_health.rs:63-106 | Once the client has left, whatever the reporter does, the forwarder takes at most three more steps, can always take the next one until it has given up, and then the reporter is not running. |

## Left out

- Transport: gRPC and HTTP servers and clients, kube plumbing, tracing and wire types are replaced by objects whose calls may fail.
- JSON: journals, documents and specs are written by functions given as parameters; of the journal's only that reading undoes writing is used, and only equality of artifacts matters.
- Lengths: text lengths count characters where the code counts bytes of names already checked to be ASCII; attribute strings and status data are taken as byte strings. The FNV hash works on UTF-8 bytes.
- Version syntax: the semantic-version check of metadata attributes is a parameter.
- Kubernetes schema: one schema is modelled; node-allocatable mappings, compatibility groups, skipped node operations and request-policy valid values, whose only treatment is empty-for-absent, are left out.
- ResourceSlice publisher: one publisher for each driver and node, working from an up-to-date listing; the owner reference is one opaque text; polling and retry delays are left out.
- Error texts: refusals are named by kind; which of several simultaneous faults is reported first is not specified.
- File system: modes, fsync durability, symbolic links, path canonicalisation and file descriptors are left out, and drivers are taken to have distinct plugin-data roots. A failed mkdir, link, unlink or rmdir may have taken effect.
- Foreign files: nobody else writes inside the metadata directories; the cleanup's check for unknown files is modelled and shown never to fire.
- Concurrent claims: runs of several jobs are generated one job after another, and interleavings are stated over single calls on a claim's own files once the roots are open; a listing of the CDI directory shows other claims' files too, of which a job picks its own by name. Jobs on one claim exclude each other by the lock proved in `ClaimLocks`.
- Metadata options: the path checks of the constructor are left out.
- Device status: stored lists start with unique keys, which publishing is shown to keep; serialisation failures of status data are left out.
- Resource versions: a version is never used twice, and a replaced claim has a new uid.
- Unix sockets: the lock file is never removed by others, and nobody outside the protocol unlinks the path.
- Batches: the unprepare call is left out; its answers are independent by construction. Prepared devices' final wire projection is left out.
- Health: the texts of the final status are one value; a reporter task that panics counts as ended.
- The classic plugin runtime, registration, liveness probe, pool-status client, permission strings and builders are left out: input and output with shallow logic.
