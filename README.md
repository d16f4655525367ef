# BuildCraft volume boxes, facade sync and engine stage, in Dafny

This project models the core of BuildCraft's volume-box subsystem and two
small self-contained pieces next to it:

- **Integer boxes.** `Box` is an immutable pair of sorted corners. `MutableBox`
  has the same corners but overwrites them in place. `BoxBase` gives both of
  them equality, a hash and the list of blocks in the box. Each box class has
  a binary codec and an NBT codec, and the NBT reader also accepts the old
  six-integer layout. The box semantics that live in the `IBox` interface
  (size, center, containment, intersection) are specified by what
  `MutableBoxTester` expects of them.
- **Locks.** A lock is a cause (`CauseBlock`) and a list of targets (`Remove`,
  `Resize`, `Addon(slot)`, `UsedByMachine(type)`). Each variant is written as
  its enum tag followed by its payload, in both the binary and the NBT form.
  A lock stays alive while the block it records is still at its position.
- **Volume boxes and their container.** A `VolumeBox` has an id, a box, an
  optional `Change` (an interactive resize that may be paused), add-ons by
  slot, and locks. It has an NBT form and a network form. Its `fromBytes`
  merges the add-ons by slot.
  - `WorldSavedDataVolumeBoxes` holds the per-world list of boxes. It answers
    first-match queries, adds boxes, and ticks: boxes follow their players or
    are paused, and dead locks are pruned. It is saved to NBT and loaded back.
  - `AddonsRegistry` is the first-registration-wins table of add-on types.
  - `BCCoreEventDist` ticks the data of server worlds and resumes a joining
    player's paused changes.
- **Facade sync.** `FacadePluggable.writeData`/`readData` send a short block id
  and one flags byte. Bit 7 is transparent, bit 6 is hollow, and the low bits
  hold the metadata. The active facade state is selected lazily.
- **Engine stage.** `Engine.getEnergyStage` classifies energy/maxEnergy
  into five stages. `addEnergy` adds energy with Java's 32-bit wrap-around
  and sets off an explosion in the Explosion stage.

Modules follow the source classes:

| module | file |
|---|---|
| `Boxes` | `box.dfy` |
| `BoxBase` | `box_base.dfy` |
| `MutableBoxes` | `mutable_box.dfy` |
| `Locks` | `lock.dfy` |
| `Addons` | `addons.dfy` |
| `VolumeBoxData` | `volume_box_data.dfy` (the box as a value and its formats) |
| `VolumeBoxes` | `volume_box.dfy` (the live object) |
| `Ticks` | `tick.dfy` (one tick, on values) |
| `SavedData` | `saved_data.dfy` |
| `EventDist` | `event_dist.dfy` |
| `Facades` | `facade.dfy` |
| `Engines` | `engine.dfy` |

Supporting modules model the engine types the core uses:
- `Values`: positions, UUIDs, blocks and Java int wrap-around.
- `Nbt`: compounds and the NBT helper functions.
- `Packets`: the network buffer as a stream of typed primitives.
- `ByteBufs`: the raw byte buffer of the facade sync.
- `Worlds`: the world as the code reads it.
- `Wrappers`: `Option`.

Every state-changing class becomes a Dafny `class` with a `View()` (or
`Views()`) function onto a value. Each method is proved against a function
of that value. The round trips, invariants and selection rules are lemmas
about those functions, so they carry over to the objects.

Behaviour of the code worth knowing:

- `tick` runs its first stage on every box with a change, paused or not. For
  a paused change `getPlayer` answers null, so the change is set paused again
  and the data is marked dirty on every tick (`Ticks.PausedStaysPaused`).
- In `fromBytes`, an entry whose add-on type name is not registered gets no
  add-on, and its payload is not read. The next entry's slot is then read
  from where that payload begins.
- The NBT constructor of a volume box catches a lock that fails to load and
  leaves it out of the list (`VolumeBoxData.LocksFromNbtAppend`).
- `Change` keeps one old `Box`.
- `size()` is max − min + 1 on every axis.

## Model

| member | source | states |
|---|---|---|
| Boxes.Make | common/buildcraft/lib/misc/data/Box.java:28-32 | The stored corners are sorted (min ≤ max on every axis), and on each axis they are the two given coordinates. |
| Boxes.MakeOrderIndependent | common/buildcraft/lib/misc/data/Box.java:28-32 | `Box(a, b)` equals `Box(b, a)`. Its min is the componentwise minimum and its max the componentwise maximum. |
| Boxes.MakeOfSorted | common/buildcraft/lib/misc/data/Box.java:28-32 | Rebuilding a sorted box from its own corners gives the same box. |
| Boxes.MakeIsSpan | common/buildcraft/lib/misc/data/Box.java:28-32 | The box of two corners holds both corners, and any box holding both corners holds all of it. |
| Boxes.SetMin | common/buildcraft/lib/misc/data/Box.java:71-76 | setMin gives a sorted new box with min = p and max = componentwise max(p, old max). |
| Boxes.SetMax | common/buildcraft/lib/misc/data/Box.java:79-84 | setMax gives a sorted new box with max = p and min = componentwise min(old min, p). |
| Boxes.ParseBox | common/buildcraft/lib/misc/data/Box.java:42-47 | A successful binary decode consumes exactly two positions and yields a sorted box. |
| Boxes.BoxBytesRoundTrip | common/buildcraft/lib/misc/data/Box.java:42-47 | Decoding what toBytes wrote (min, then max) gives the same box back and leaves the rest of the stream. |
| Boxes.ParseBoxSorts | common/buildcraft/lib/misc/data/Box.java:42-47 | Two unsorted positions on the wire decode to the sorted box of those corners. |
| Boxes.WriteBox | common/buildcraft/lib/misc/data/Box.java:86-89 | toBytes appends min then max to the buffer and reads nothing. |
| Boxes.ReadBox | common/buildcraft/lib/misc/data/Box.java:42-47 | Reading a box from the buffer consumes and returns exactly what the decoder function says, and fails where it fails. |
| Boxes.BoxFromNbt | common/buildcraft/lib/misc/data/Box.java:49-58 | An NBT decode that succeeds is sorted. It fails exactly when one corner can be read neither from its legacy keys nor from its current tag. |
| Boxes.NbtRoundTrip | common/buildcraft/lib/misc/data/Box.java:49-58 | `new Box(b.writeToNbt())` equals b, since the writer (lines 91-96) uses only the `min`/`max` tags. |
| Boxes.LegacyLayout | common/buildcraft/lib/misc/data/Box.java:51-56 | With `xMin` present the min comes from the legacy integers, and with `xMax` present the max does. Each corner is decided on its own, and the other falls back to its tag. |
| Boxes.MissingCornerRejected | common/buildcraft/lib/misc/data/Box.java:53-56 | A corner with neither its legacy key nor its current tag makes the decode fail (requireNonNull). |
| Boxes.Center | src/test/java/buildcraft/test/core/MutableBoxTester.java:67-71 | The integer center is min plus half the size, rounded down, on every axis. |
| Boxes.ContainsAgrees | src/test/java/buildcraft/test/core/MutableBoxTester.java:30-47 | A block lies in the box (inclusive corners) exactly when its minimum corner lies in the half-open continuous box [min, max + 1). |
| Boxes.IntersectCommutative | src/test/java/buildcraft/test/core/MutableBoxTester.java:79-104 | `a.intersect(b)` equals `b.intersect(a)`, as each tester case checks both ways. |
| Boxes.IntersectContains | src/test/java/buildcraft/test/core/MutableBoxTester.java:79-104 | The intersection is sorted and holds exactly the blocks that both boxes hold (inclusive, so touching boxes share a layer). |
| Boxes.IntersectNoneDisjoint | common/buildcraft/lib/misc/data/Box.java:110-114 | intersect answers null exactly when no block lies in both boxes. |
| Boxes.ExtendToEncompass | common/buildcraft/lib/misc/data/Box.java:122-124 | The extended box holds the point and every block of the old box, and stays sorted. |
| Boxes.ExtendToEncompassLeast | common/buildcraft/lib/misc/data/Box.java:122-124 | Any box holding the old box and the point holds the extended box: it is the smallest such box. |
| Boxes.TesterExamples | src/test/java/buildcraft/test/core/MutableBoxTester.java:25-104 | For [1,2,3]-[4,5,6]: size (4,4,4), center (3,4,5), exact center (3,4,5). The five containment points come out as expected. The three intersection cases give the expected boxes. |
| BoxBase.EqualsIsEquivalence | common/buildcraft/lib/misc/data/BoxBase.java:63-70 | equals is reflexive, symmetric and transitive, and false for null. |
| BoxBase.EqualsIff | common/buildcraft/lib/misc/data/BoxBase.java:63-70 | Two box objects are equal exactly when they have the same runtime class and equal min and max. |
| BoxBase.BoxNeverEqualsMutableBox | common/buildcraft/lib/misc/data/BoxBase.java:67 | A Box and a MutableBox with the same corners are unequal either way round. |
| BoxBase.EqualBoxesHashEqually | common/buildcraft/lib/misc/data/BoxBase.java:77-80 | Equal boxes have equal hash codes. |
| BoxBase.BlocksInAreaSpec | common/buildcraft/lib/misc/data/BoxBase.java:24-26 | getBlocksInArea lists exactly the blocks of the box, and as many as its volume. |
| MutableBoxes.MutableBox.constructor | common/buildcraft/lib/misc/data/MutableBox.java:30-34 | The new box stores the sorted corners of the two arguments. |
| MutableBoxes.MutableBox.SetMin | common/buildcraft/lib/misc/data/MutableBox.java:47-51 | In place, min := p and max := max(p, old max). It returns the same object, and the new corners are those Box.setMin gives. |
| MutableBoxes.MutableBox.SetMax | common/buildcraft/lib/misc/data/MutableBox.java:54-58 | In place, min := min(old min, p) and max := p. It returns the same object. |
| MutableBoxes.SetMinThenSetMax | common/buildcraft/lib/misc/data/MutableBox.java:47-58 | setMin(a).setMax(b) ends with corners (min(a, b), b) whatever came before, so exactly (a, b) when a ≤ b. |
| MutableBoxes.MutableBox.ToBytes | common/buildcraft/lib/misc/data/MutableBox.java:60-63 | Appends min, then max. |
| MutableBoxes.ParseCorners | common/buildcraft/lib/misc/data/MutableBox.java:65-68 | A successful read consumes exactly two positions. |
| MutableBoxes.MutableBox.FromBytes | common/buildcraft/lib/misc/data/MutableBox.java:65-68 | The corners become the two positions read, unsorted. If the read stops after the first position, min is already assigned and max is not. |
| MutableBoxes.CornersRoundTrip | common/buildcraft/lib/misc/data/MutableBox.java:60-68 | fromBytes after toBytes restores both corners exactly, sorted or not. |
| MutableBoxes.CornersNotSorted | common/buildcraft/lib/misc/data/MutableBox.java:65-68 | (5,0,0),(1,0,0) stays unsorted through fromBytes, while new Box(buf) sorts it. |
| MutableBoxes.MutableBox.ReadFromNbt | common/buildcraft/lib/misc/data/MutableBox.java:77-83 | The corners after setMin/setMax from the legacy integers or from the tags. The result is the same object, or a failure where requireNonNull throws, with setMin already applied when only max is missing. |
| MutableBoxes.NbtRoundTripInto | common/buildcraft/lib/misc/data/MutableBox.java:70-83 | readFromNbt(b.writeToNbt()) gives any receiver exactly b's corners, for a sorted b. |
| MutableBoxes.ReadFromNbtUnsorted | common/buildcraft/lib/misc/data/MutableBox.java:78-80 | Unsorted legacy integers go through setMin/setMax, which differs from new Box(nbt), which sorts them. |
| MutableBoxes.MutableBox.Intersect | common/buildcraft/lib/misc/data/MutableBox.java:99-101 | A new box holding the intersection of the corners, or null exactly when the boxes are disjoint. |
| Locks.NewLock | common/buildcraft/core/marker/volume/Lock.java:40-43 | The lock holds the cause and a copy of the target array's contents. |
| Locks.NewLockCopies | common/buildcraft/core/marker/volume/Lock.java:40-43 | The lock keeps the array's contents at construction: a later write to the array leaves the lock as it was, and the two differ exactly when the write changed the array. |
| Locks.ForClassOfValue | common/buildcraft/core/marker/volume/Lock.java:151-156 | getForClass finds the constant of every cause and every target variant (EnumTarget.getForClass at lines 297-302 too). That constant's class is the variant's class. |
| Locks.TargetRoundTrip | common/buildcraft/core/marker/volume/Lock.java:165-277 | Every target variant decodes from its tag and payload back to itself. An addon slot needs to be in range. |
| Locks.TargetsRoundTrip | common/buildcraft/core/marker/volume/Lock.java:59-64 | A run of encoded targets decodes to the same targets in order. |
| Locks.LockBytesRoundTrip | common/buildcraft/core/marker/volume/Lock.java:59-89 | Decoding what toBytes wrote (cause tag, cause payload, count, then tag and payload per target) gives the same cause and targets. |
| Locks.WriteTarget | common/buildcraft/core/marker/volume/Lock.java:85-88 | One target is written as its constant, then its payload. |
| Locks.WriteTargets | common/buildcraft/core/marker/volume/Lock.java:84-88 | The targets are written one after the other, in list order. |
| Locks.WriteLock | common/buildcraft/core/marker/volume/Lock.java:81-89 | toBytes appends the lock's whole binary form. |
| Locks.ReadTarget | common/buildcraft/core/marker/volume/Lock.java:62 | Reading one target consumes and returns what the target decoder says. |
| Locks.ReadTargets | common/buildcraft/core/marker/volume/Lock.java:61-63 | Reading n targets consumes and returns what the decoder says, and fails at the first bad target. |
| Locks.ReadLock | common/buildcraft/core/marker/volume/Lock.java:59-64 | new Lock(buf) consumes and returns what the lock decoder says; a negative count reads no targets. |
| Locks.TargetsFromNbt | common/buildcraft/core/marker/volume/Lock.java:50-56 | A decoded target list is as long as the list of tags. |
| Locks.TargetNbtRoundTrip | common/buildcraft/core/marker/volume/Lock.java:165-277 | Every target variant reads back from the entry writeToNBT makes for it. |
| Locks.TargetsNbtRoundTrip | common/buildcraft/core/marker/volume/Lock.java:50-77 | The target list reads back in order from the list writeToNBT makes. |
| Locks.LockNbtRoundTrip | common/buildcraft/core/marker/volume/Lock.java:45-79 | `new Lock(l.writeToNBT())` has the same cause and the same targets in order. |
| Locks.UnknownTagRejected | common/buildcraft/core/marker/volume/Lock.java:47-54 | An unknown cause tag, or an unknown tag on any target, makes the NBT decode fail. |
| Locks.TargetsFailAt | common/buildcraft/core/marker/volume/Lock.java:50-56 | One target that fails to decode makes the whole list fail. |
| Locks.EmptyPayloads | common/buildcraft/core/marker/volume/Lock.java:165-203 | Remove and Resize write no binary payload and an empty compound. |
| Addons.IndexByName | common/buildcraft/core/marker/volume/AddonsRegistry.java:28-34 | The index found is the first entry with that name, and no index means no entry has that name. |
| Addons.IndexByClass | common/buildcraft/core/marker/volume/AddonsRegistry.java:36-42 | The same for classes: the first match, or none at all. |
| Addons.RegisterKeepsInvariant | common/buildcraft/core/marker/volume/AddonsRegistry.java:20-26 | register keeps names pairwise distinct, keeps the existing entries in order, and adds at most one. |
| Addons.RegisterFirstWins | common/buildcraft/core/marker/volume/AddonsRegistry.java:22-34 | After register(t) the name is found. It finds the earlier entry if there was one, otherwise t. |
| Addons.RegisterIdempotent | common/buildcraft/core/marker/volume/AddonsRegistry.java:22-26 | Registering the same type twice leaves the registry as registering it once. |
| Addons.RegisterOtherNames | common/buildcraft/core/marker/volume/AddonsRegistry.java:22-34 | The lookup of any other name is unchanged by register(t). |
| Addons.ByNameOfByClass | common/buildcraft/core/marker/volume/AddonsRegistry.java:28-42 | Looking up by name the entry found by class gives that entry, while names are distinct. |
| Addons.AddonsRegistry.constructor | common/buildcraft/core/marker/volume/AddonsRegistry.java:20 | The registry starts empty (and valid). |
| Addons.AddonsRegistry.Register | common/buildcraft/core/marker/volume/AddonsRegistry.java:22-26 | The list becomes the first-wins registration of t, and names stay distinct. |
| VolumeBoxData.SlotOrderCoversKeys | common/buildcraft/core/marker/volume/VolumeBox.java:123-132 | The EnumMap's slot order lists every slot in use exactly once. |
| Nbt.NumericKinds | common/buildcraft/core/marker/volume/VolumeBox.java:206-212 | The NBT getters the Change constructor reads with accept a byte, short or int tag as the same number, and a small integer flag reads as non-zero. |
| VolumeBoxData.ChangeNbtRoundTrip | common/buildcraft/core/marker/volume/VolumeBox.java:206-212 | Change(nbt) after Change.writeToNBT (lines 256-264) gives back player, old box, held corner, distance and paused flag. |
| VolumeBoxData.ChangeBytesRoundTrip | common/buildcraft/core/marker/volume/VolumeBox.java:198-204 | Change(buf) after Change.toBytes (lines 266-272) gives back the same change and leaves the rest. |
| VolumeBoxData.AddonsNbtFails | common/buildcraft/core/marker/volume/VolumeBox.java:99-110 | Writing the add-on list fails exactly when some add-on's class has no registry entry (requireNonNull). |
| VolumeBoxData.VolumeBoxToNbtFails | common/buildcraft/core/marker/volume/VolumeBox.java:89-114 | writeToNBT fails exactly when an add-on is unregistered. |
| VolumeBoxData.VolumeBoxCompoundLookups | common/buildcraft/core/marker/volume/VolumeBox.java:89-114 | The compound written holds the id, the box tag, the change tag exactly when there is a change, the add-on list and the lock list under their keys. |
| VolumeBoxData.AddonsNbtRoundTrip | common/buildcraft/core/marker/volume/VolumeBox.java:61-74 | Decoding the written add-on entries puts each add-on back in its slot, with its class and payload. |
| VolumeBoxData.LocksNbtRoundTrip | common/buildcraft/core/marker/volume/VolumeBox.java:75-82 | Decoding the written lock list gives the locks in order. |
| VolumeBoxData.LocksFromNbtAppend | common/buildcraft/core/marker/volume/VolumeBox.java:75-82 | Decoding the locks is a filter: a failing lock is dropped without aborting, so two lists decode to the two decodings joined. |
| VolumeBoxData.AddonsFromNbtSlots | common/buildcraft/core/marker/volume/VolumeBox.java:61-74 | The decoded slots are exactly the slots of the entries whose type name is registered; unregistered ones are skipped. |
| VolumeBoxData.VolumeBoxNbtRoundTrip | common/buildcraft/core/marker/volume/VolumeBox.java:56-114 | The NBT constructor after writeToNBT gives back the whole volume box. The stored id is used, whatever fresh id is on offer. |
| VolumeBoxData.ParseAddonsStep | common/buildcraft/core/marker/volume/VolumeBox.java:139-152 | The add-on loop of fromBytes reads one entry (slot, name and, when registered, payload) per pass. |
| VolumeBoxData.SyncedAddons | common/buildcraft/core/marker/volume/VolumeBox.java:153-160 | After the merge the slots are the decoded slots. A slot held before keeps its object's class and feeds it the decoded payload; a new slot holds the decoded add-on, which is fed its own payload a second time. |
| VolumeBoxData.FreshAddons | common/buildcraft/core/marker/volume/VolumeBox.java:142-151 | The add-ons the entry loop creates have the decoded slots, each a new add-on of the decoded class fed its payload once. |
| VolumeBoxData.SyncedCounters | common/buildcraft/core/marker/volume/VolumeBox.java:147-160 | A retained slot's add-on keeps its callback counts. A new slot's add-on was told onAdded once. |
| VolumeBoxData.AddonsBytesRoundTrip | common/buildcraft/core/marker/volume/VolumeBox.java:123-152 | The entries toBytes writes (slot, type name, payload) are read back by the add-on loop of fromBytes into the same slots. |
| VolumeBoxData.LocksBytesRoundTrip | common/buildcraft/core/marker/volume/VolumeBox.java:161-162 | The locks toBytes writes (lines 133-134) are read back in order, and the stream after them is left. |
| VolumeBoxData.HeaderRoundTrip | common/buildcraft/core/marker/volume/VolumeBox.java:44-48 | VolumeBox(world, buf) reads back the id and box toBytes wrote first, and leaves exactly what fromBytes reads. |
| VolumeBoxData.ChangePartRoundTrip | common/buildcraft/core/marker/volume/VolumeBox.java:138 | The change flag and the change (lines 119-122) read back as written. |
| VolumeBoxData.AddonPartRoundTrip | common/buildcraft/core/marker/volume/VolumeBox.java:139-152 | The add-on count and entries read back to the box's add-on map. |
| VolumeBoxData.SyncRoundTrip | common/buildcraft/core/marker/volume/VolumeBox.java:116-163 | fromBytes reads back everything toBytes wrote after the header: the change, the add-ons by slot and the locks in order. It stops where they end. |
| VolumeBoxData.SyncConverges | common/buildcraft/core/marker/volume/VolumeBox.java:137-163 | For add-ons whose fromBytes replaces what they hold by what they read, a client applying the server's toBytes ends with the server's change, add-ons and locks, when slots held on both sides hold the same class. |
| VolumeBoxData.SyncDelivers | common/buildcraft/core/marker/volume/VolumeBox.java:137-163 | For any add-on behaviour, a client applying the server's toBytes ends with the server's change and locks, and with the add-ons SyncedAddons gives for the server's payloads. |
| VolumeBoxData.ReplacingSync | common/buildcraft/core/marker/volume/VolumeBox.java:139-160 | With replacing add-ons, the merged add-ons are exactly the server's, whatever the client held. |
| VolumeBoxData.MergingFeedKeepsStale | common/buildcraft/core/marker/volume/VolumeBox.java:153-160 | With add-ons that add what they read to what they hold, a kept slot keeps a key the server no longer has, so the client differs from the server. |
| VolumeBoxData.CancelRestores | common/buildcraft/core/marker/volume/VolumeBox.java:214-217 | A change started on a box and resized to anything, paused or not, cancels back to the box as it was. |
| VolumeBoxData.ConfirmKeeps | common/buildcraft/core/marker/volume/VolumeBox.java:219-222 | Confirm keeps the resized box and ends the change, whereas cancel restores the old box. |
| VolumeBoxData.LockTargetsSpec | common/buildcraft/core/marker/volume/VolumeBox.java:85-87 | The target stream holds exactly the targets of the locks, and a lock without targets adds none. |
| VolumeBoxData.UuidHash | common/buildcraft/core/marker/volume/VolumeBox.java:179-182 | The hash is a 32-bit int (UUID.hashCode). |
| VolumeBoxData.UuidHashSymmetric | common/buildcraft/core/marker/volume/VolumeBox.java:179-182 | The hash depends only on the xor of the two halves. |
| VolumeBoxes.VolumeBox.At | common/buildcraft/core/marker/volume/VolumeBox.java:50-54 | A new box at `at` is a one-block box with the drawn id, and has no change, no add-ons and no locks. |
| VolumeBoxes.VolumeBox.Equals | common/buildcraft/core/marker/volume/VolumeBox.java:174-182 | Two volume boxes are equal exactly when their ids are equal, and equal boxes hash equally. |
| VolumeBoxes.VolumeBox.StartChange | common/buildcraft/core/marker/volume/VolumeBox.java:170-172 | The change is set, and nothing else moves. |
| VolumeBoxes.VolumeBox.Cancel | common/buildcraft/core/marker/volume/VolumeBox.java:214-217 | The box becomes the change's old box, and the change ends. |
| VolumeBoxes.VolumeBox.SetPaused | common/buildcraft/core/marker/volume/VolumeBox.java:236-238 | Only the change's paused flag changes. |
| VolumeBoxes.VolumeBox.Confirm | common/buildcraft/core/marker/volume/VolumeBox.java:219-222 | Every add-on's onVolumeBoxSizeChange fires exactly once. The box stays and the change ends. |
| VolumeBoxes.VolumeBox.ToBytes | common/buildcraft/core/marker/volume/VolumeBox.java:116-135 | The buffer gets id, box, change flag and change, add-on count and entries in slot order, then lock count and locks. |
| VolumeBoxes.VolumeBox.FromBytes | common/buildcraft/core/marker/volume/VolumeBox.java:137-163 | The new value is the old one with each part fromBytes got as far as decoding replaced. A retained slot keeps its object, a new slot gets a fresh object, and a dropped slot goes. Payloads are fed as SyncedAddons says and the callback counters follow SyncedCounters. |
| VolumeBoxes.VolumeBox.ReadChange | common/buildcraft/core/marker/volume/VolumeBox.java:138 | The change is assigned once its flag and body are read. The add-ons are untouched. |
| VolumeBoxes.VolumeBox.ReadAddonPart | common/buildcraft/core/marker/volume/VolumeBox.java:139-160 | Once every entry is read, the add-ons are merged as SyncedAddons says. When a read fails, the present map is untouched. |
| VolumeBoxes.VolumeBox.Merge | common/buildcraft/core/marker/volume/VolumeBox.java:153-160 | Undecoded slots are removed and new slots are added. Every decoded payload is fed into the object now in its slot, as SyncedAddons says. |
| VolumeBoxes.MergeAddons | common/buildcraft/core/marker/volume/VolumeBox.java:153-160 | The merged map is removeIf then put, its slots still hold distinct objects, and what they hold and count is SyncedAddons and SyncedCounters of the maps before. |
| VolumeBoxes.VolumeBox.ReadLocks | common/buildcraft/core/marker/volume/VolumeBox.java:161-162 | The lock list is cleared, then refilled with the locks read before any failure. |
| VolumeBoxes.MergedInjective | common/buildcraft/core/marker/volume/VolumeBox.java:153-155 | After removeIf and put, distinct slots still hold distinct objects, all taken from the two maps. |
| VolumeBoxes.Feed | common/buildcraft/core/marker/volume/VolumeBox.java:156-160 | Each slot's object holds what its fromBytes makes of its own payload and the payload of the decoded object for that slot, and its counters stay. |
| VolumeBoxes.ReadIncoming | common/buildcraft/core/marker/volume/VolumeBox.java:139-152 | The count and the entries are read into fresh add-ons, each told onAdded once and fed its payload, exactly as the add-on decoder and FreshAddons say. |
| VolumeBoxes.ReadAddons | common/buildcraft/core/marker/volume/VolumeBox.java:141-152 | n entries are read into a fresh map of fresh add-ons, a later entry for a slot replacing an earlier one; the map holds FreshAddons of what ParseAddons decodes. |
| VolumeBoxes.ReadAddonInto | common/buildcraft/core/marker/volume/VolumeBox.java:142-151 | One pass of the loop: the entry's add-on, if its name is registered, goes in its slot, and the map holds FreshAddons of the decoded entries so far. |
| VolumeBoxes.ReadAddonEntry | common/buildcraft/core/marker/volume/VolumeBox.java:142-151 | One entry gives its slot and, exactly when the name is registered, a fresh add-on that was told onAdded and fed its payload (FreshAddon). |
| VolumeBoxes.WriteAddons | common/buildcraft/core/marker/volume/VolumeBox.java:123-132 | The count, then one entry per slot in slot order. |
| VolumeBoxes.WriteLocks | common/buildcraft/core/marker/volume/VolumeBox.java:133-134 | The count, then each lock's binary form. |
| VolumeBoxes.ReadLockPart | common/buildcraft/core/marker/volume/VolumeBox.java:161-162 | The count, then the locks read before a failure. |
| VolumeBoxes.ReadLockList | common/buildcraft/core/marker/volume/VolumeBox.java:162 | Up to n locks, stopping at the first that fails, with the rest of the stream when all n are read. |
| VolumeBoxes.WriteChangePart | common/buildcraft/core/marker/volume/VolumeBox.java:119-122 | The change flag, then the change when there is one. |
| VolumeBoxes.ReadChange | common/buildcraft/core/marker/volume/VolumeBox.java:198-204 | Change(buf) consumes player, old box, held corner, distance and paused flag, and its old box is sorted. |
| VolumeBoxes.ReadVolumeBox | common/buildcraft/core/marker/volume/VolumeBox.java:44-48 | A fresh volume box whose id and sorted box are the ones read. It has no change, add-ons or locks. |
| VolumeBoxes.LoadAddons | common/buildcraft/core/marker/volume/VolumeBox.java:61-74 | One fresh add-on per registered entry, in its slot, with the decoded payload. It fails exactly where a slot does not read. |
| VolumeBoxes.LoadVolumeBox | common/buildcraft/core/marker/volume/VolumeBox.java:56-83 | The NBT constructor yields a fresh object whose value is the decoded record. It fails exactly where the value decoder fails. |
| Ticks.TickChanges | common/buildcraft/core/marker/volume/WorldSavedDataVolumeBoxes.java:80-99 | The first stage acts on every box, one by one, in list order. |
| Ticks.TickPausesWithoutPlayer | common/buildcraft/core/marker/volume/WorldSavedDataVolumeBoxes.java:80-85 | A change whose player cannot be resolved ends paused, with box and locks unchanged, and the data is dirty. |
| Ticks.TickFollowsPlayer | common/buildcraft/core/marker/volume/WorldSavedDataVolumeBoxes.java:85-97 | With the player found, the box becomes the smallest box holding the held corner and the looked-at block. Dirty is set exactly when the bounds moved. |
| Ticks.PausedStaysPaused | common/buildcraft/core/marker/volume/WorldSavedDataVolumeBoxes.java:80-84 | A paused change stays paused and keeps its box, yet marks the data dirty on every tick. |
| Ticks.NoChangeUntouched | common/buildcraft/core/marker/volume/WorldSavedDataVolumeBoxes.java:80 | A box without a change is not touched by the first stage. |
| Ticks.TickChangeFrame | common/buildcraft/core/marker/volume/WorldSavedDataVolumeBoxes.java:80-99 | The first stage changes only the box and the paused flag. |
| Ticks.PruneAll | common/buildcraft/core/marker/volume/WorldSavedDataVolumeBoxes.java:100-108 | The second stage acts on every box, in list order. |
| Ticks.LiveLocksMembers | common/buildcraft/core/marker/volume/WorldSavedDataVolumeBoxes.java:100-108 | A lock is kept exactly when it was there and its cause still works (Lock.java:130-133, the block is still at its position). |
| Ticks.LiveLocksAppend | common/buildcraft/core/marker/volume/WorldSavedDataVolumeBoxes.java:100-108 | Pruning keeps the remaining locks in their order. |
| Ticks.LiveLocksAll | common/buildcraft/core/marker/volume/WorldSavedDataVolumeBoxes.java:104-107 | Nothing is removed exactly when every cause still works. |
| Ticks.RemoveDeadIsLive | common/buildcraft/core/marker/volume/WorldSavedDataVolumeBoxes.java:101-107 | removeAll of the dead locks is keeping the live ones, and the dead list is empty exactly when nothing is removed. |
| Ticks.DeadMembers | common/buildcraft/core/marker/volume/WorldSavedDataVolumeBoxes.java:101-103 | locksToRemove holds exactly the locks whose cause fails. |
| Ticks.LiveLocksIdempotent | common/buildcraft/core/marker/volume/WorldSavedDataVolumeBoxes.java:100-108 | Pruning a second time in the same world removes nothing more. |
| Ticks.QuietTick | common/buildcraft/core/marker/volume/WorldSavedDataVolumeBoxes.java:78-112 | With no changes and every cause live, a tick changes nothing and does not mark the data dirty. |
| Ticks.TickKeeps | common/buildcraft/core/marker/volume/WorldSavedDataVolumeBoxes.java:78-112 | A tick keeps the number, order, ids and add-ons of the boxes and the live locks of each. |
| Ticks.TickPrunesOnce | common/buildcraft/core/marker/volume/WorldSavedDataVolumeBoxes.java:100-108 | After a tick, a second tick in the same world finds no dead lock. |
| SavedData.WorldSavedDataVolumeBoxes.constructor | common/buildcraft/core/marker/volume/WorldSavedDataVolumeBoxes.java:41-45 | A new container has no boxes, is not dirty and has sent nothing. |
| SavedData.WorldSavedDataVolumeBoxes.Find | common/buildcraft/core/marker/volume/WorldSavedDataVolumeBoxes.java:52-76 | The result is the first box in list order answering the query, or null when none does. |
| SavedData.WorldSavedDataVolumeBoxes.GetVolumeBoxAt | common/buildcraft/core/marker/volume/WorldSavedDataVolumeBoxes.java:52-55 | The first box containing the position, or null. |
| SavedData.WorldSavedDataVolumeBoxes.GetVolumeBoxFromId | common/buildcraft/core/marker/volume/WorldSavedDataVolumeBoxes.java:61-64 | The first box with that id, or null. |
| SavedData.WorldSavedDataVolumeBoxes.GetCurrentChanging | common/buildcraft/core/marker/volume/WorldSavedDataVolumeBoxes.java:66-76 | The first box whose change belongs to the player, or null. |
| SavedData.WorldSavedDataVolumeBoxes.AddVolumeBox | common/buildcraft/core/marker/volume/WorldSavedDataVolumeBoxes.java:57-59 | Exactly one fresh one-block box at pos is appended, and the existing boxes stay in order. |
| SavedData.WorldSavedDataVolumeBoxes.MarkDirty | common/buildcraft/core/marker/volume/WorldSavedDataVolumeBoxes.java:114-118 | The save flag is set and the current box list is broadcast once. The boxes are untouched. |
| SavedData.WorldSavedDataVolumeBoxes.Tick | common/buildcraft/core/marker/volume/WorldSavedDataVolumeBoxes.java:78-112 | The boxes become the value-level tick of the old boxes. markDirty runs once exactly when either stage reported a change. |
| SavedData.TickBoxes | common/buildcraft/core/marker/volume/WorldSavedDataVolumeBoxes.java:79-108 | Both stages over the distinct boxes, with the dirty flag tick reports. |
| SavedData.TickChangesAll | common/buildcraft/core/marker/volume/WorldSavedDataVolumeBoxes.java:80-99 | After the first-stage loop, each box has had its own update, and `changed` tells whether any of them paused or moved. |
| SavedData.PruneAllLocks | common/buildcraft/core/marker/volume/WorldSavedDataVolumeBoxes.java:100-108 | After the lock loop, each box keeps its live locks, and `pruned` tells whether any lock was removed. |
| SavedData.TickChangeOf | common/buildcraft/core/marker/volume/WorldSavedDataVolumeBoxes.java:80-98 | One box is paused or follows its player, and the result says whether that dirties the data. |
| SavedData.PruneLocksOf | common/buildcraft/core/marker/volume/WorldSavedDataVolumeBoxes.java:101-107 | One box drops its dead locks, and the result says whether any was dropped. |
| SavedData.BoxesToNbtFails | common/buildcraft/core/marker/volume/WorldSavedDataVolumeBoxes.java:121-125 | Writing fails exactly when some box has an unregistered add-on, and otherwise lists every box's compound in order. |
| SavedData.WriteToNbt | common/buildcraft/core/marker/volume/WorldSavedDataVolumeBoxes.java:121-125 | The same "fails exactly when" rule. Every other key of the given compound is kept. |
| SavedData.UntilFailurePrefix | common/buildcraft/core/marker/volume/WorldSavedDataVolumeBoxes.java:129-137 | When a constructor throws, the boxes read before it are kept, in order, and the rest are not read. |
| SavedData.SavedNbtRoundTrip | common/buildcraft/core/marker/volume/WorldSavedDataVolumeBoxes.java:121-138 | readFromNBT after writeToNBT gives back every box, in order, and completes. |
| SavedData.WorldSavedDataVolumeBoxes.ReadFromNbt | common/buildcraft/core/marker/volume/WorldSavedDataVolumeBoxes.java:127-138 | The list is cleared and refilled from the stored list in order, up to the first entry that throws. |
| SavedData.LoadEntry | common/buildcraft/core/marker/volume/WorldSavedDataVolumeBoxes.java:132-136 | One stored entry becomes a fresh box whose value is that entry decoded, or fails where decoding fails. |
| SavedData.Get | common/buildcraft/core/marker/volume/WorldSavedDataVolumeBoxes.java:140-154 | A client world is rejected with the storage unchanged. Otherwise the result is the stored instance, or a new empty instance put in storage. |
| EventDist.ResumedAll | common/buildcraft/core/BCCoreEventDist.java:44-48 | The join rule acts on every box, in list order. |
| EventDist.ResumeOnlyUnpauses | common/buildcraft/core/BCCoreEventDist.java:47-48 | Resuming keeps id, box, add-ons, locks, player, old box, held corner and distance. A change ends paused exactly when it was paused and belongs to someone else. |
| EventDist.ResumeLeavesOthers | common/buildcraft/core/BCCoreEventDist.java:47 | Boxes without a change, with a running change, or with another player's change are untouched. |
| EventDist.ResumeIdempotent | common/buildcraft/core/BCCoreEventDist.java:44-48 | A second join of the same player changes nothing more. |
| EventDist.ResumeThenTick | common/buildcraft/core/BCCoreEventDist.java:44-48 | Before the join a paused change ignores the tick. After it, the next tick with the player present makes the box follow the look ray again. |
| EventDist.ResumeChanges | common/buildcraft/core/BCCoreEventDist.java:44-48 | Over the distinct boxes of the list, exactly the joining player's paused changes are unpaused. |
| EventDist.OnWorldTick | common/buildcraft/core/BCCoreEventDist.java:28-32 | A client world, or one without a server, changes nothing. Otherwise the saved data is fetched or created and ticked. |
| EventDist.OnEntityJoinWorld | common/buildcraft/core/BCCoreEventDist.java:34-50 | A server player who joins has each paused change of theirs resumed. Any other entity changes nothing. |
| Facades.BlockIdRoundTrip | src/transport/java/buildcraft/transport/FacadePluggable.java:141-155 | A registered block's id is positive, fits the short, and getBlockById maps it back to the block. |
| Facades.Decoded | src/transport/java/buildcraft/transport/FacadePluggable.java:152-165 | readData's metadata is below 16, and an id of 0 gives no block. |
| Facades.FlagBitsApart | src/transport/java/buildcraft/transport/FacadePluggable.java:147-148 | Bits 7 and 6 and the low four bits of the flags byte do not overlap. |
| Facades.FlagsRoundTrip | src/transport/java/buildcraft/transport/FacadePluggable.java:147-164 | The flags byte gives back transparent, hollow and a metadata below 16. |
| Facades.DecodedWire | src/transport/java/buildcraft/transport/FacadePluggable.java:138-165 | The id and flags writeData produces decode to the active state, or with no active state to no block and all flags clear. |
| Facades.SyncRoundTrip | src/transport/java/buildcraft/transport/FacadePluggable.java:138-165 | readData after writeData gives the client the server's active state (three bytes), for metadata below 16 and a registered or absent block. |
| Facades.MetadataSpills | src/transport/java/buildcraft/transport/FacadePluggable.java:147-148 | A metadata of 64 spills into bit 6: a solid facade with metadata 64 arrives hollow. |
| Facades.RequiresRenderUpdate | src/transport/java/buildcraft/transport/FacadePluggable.java:53-57 | A re-render is needed exactly when some synced field differs. |
| Facades.PreparedProperties | src/transport/java/buildcraft/transport/FacadePluggable.java:167-171 | prepareStates never overwrites a set active state. Otherwise it picks states[0] exactly when there are states, and it is idempotent. |
| Facades.FacadePluggable.constructor | src/transport/java/buildcraft/transport/FacadePluggable.java:46-49 | The states are kept and the first becomes active, and nothing is synced yet. |
| Facades.FacadePluggable.Empty | src/transport/java/buildcraft/transport/FacadePluggable.java:51 | A client facade has no states, no active state and nothing synced. |
| Facades.FacadePluggable.PrepareStates | src/transport/java/buildcraft/transport/FacadePluggable.java:167-171 | The active state becomes the prepared one. |
| Facades.FacadePluggable.SetActiveState | src/transport/java/buildcraft/transport/FacadePluggable.java:173-177 | An id in range selects that state. Any other id leaves the active state as it was. |
| Facades.FacadePluggable.GetCurrentBlock | src/transport/java/buildcraft/transport/FacadePluggable.java:87-91 | After preparing, the active state's block, or the synced block when none is active. |
| Facades.FacadePluggable.GetCurrentMetadata | src/transport/java/buildcraft/transport/FacadePluggable.java:93-97 | The same rule, for the metadata. |
| Facades.FacadePluggable.IsTransparent | src/transport/java/buildcraft/transport/FacadePluggable.java:99-103 | The same rule, for transparency. |
| Facades.FacadePluggable.IsHollow | src/transport/java/buildcraft/transport/FacadePluggable.java:105-108 | The same rule, for hollowness. |
| Facades.FacadePluggable.IsBlocking | src/transport/java/buildcraft/transport/FacadePluggable.java:83-85 | The facade blocks the pipe side exactly when it is not hollow. |
| Facades.FacadePluggable.IsSolidOnSide | src/transport/java/buildcraft/transport/FacadePluggable.java:127-130 | The facade is solid on its side exactly when it is not hollow. |
| Facades.FacadePluggable.WriteData | src/transport/java/buildcraft/transport/FacadePluggable.java:138-149 | The state is prepared first, then the short id (0 with no state or no block) and the flags byte are appended. |
| Facades.FacadePluggable.ReadData | src/transport/java/buildcraft/transport/FacadePluggable.java:151-165 | With three bytes left, the synced fields are decoded from id and flags. With fewer, the read stops where the bytes run out: with two bytes left the block is assigned, the other fields keep their values and the reader stands after the id; with fewer nothing changes. |
| Engines.PercentBelow | buildcraft/common/net/minecraft/src/buildcraft/energy/Engine.java:27-33 | For a positive capacity, `energy/max·100 ≤ 25k` is exactly `4·energy ≤ k·max`. |
| Engines.StageThresholds | buildcraft/common/net/minecraft/src/buildcraft/energy/Engine.java:26-38 | For a positive capacity: Blue up to 25%, Green up to 50%, Yellow up to 75%, Red up to 100%, each bound inclusive. Explosion exactly when energy > maxEnergy. |
| Engines.StageMonotone | buildcraft/common/net/minecraft/src/buildcraft/energy/Engine.java:26-38 | For a fixed positive capacity, more energy never gives a lower stage. |
| Engines.NoCapacity | buildcraft/common/net/minecraft/src/buildcraft/energy/Engine.java:26-38 | With capacity 0 every energy that is not negative is an explosion (an infinite or NaN ratio). |
| Engines.Engine.constructor | buildcraft/common/net/minecraft/src/buildcraft/energy/Engine.java:22-24 | Java's defaults: no energy, no capacity, no explosion. |
| Engines.Engine.AddEnergy | buildcraft/common/net/minecraft/src/buildcraft/energy/Engine.java:54-61 | Energy goes up by the addition with 32-bit wrap-around, and exactly one explosion follows exactly when the new stage is Explosion. |
| Engines.AddEnergyExact | buildcraft/common/net/minecraft/src/buildcraft/energy/Engine.java:54-55 | Without overflow the energy goes up by exactly the addition. |
| Engines.AddEnergyExplodes | buildcraft/common/net/minecraft/src/buildcraft/energy/Engine.java:54-61 | For a positive capacity and no overflow, addEnergy explodes exactly when the new energy passes the capacity. |

## Left out

**The tick and the world**
- The tick follows the evident intent of `WorldSavedDataVolumeBoxes.java:81-94`. That code calls `getPlayer(world)`, `box.reset()` and `getDist()`, none of which the shown `VolumeBox`/`Box` have. The model uses the shown `getPlayer()`, which answers null for a paused change, and makes the new box the span of the held corner and the looked-at block.
  - `VolumeBox.box` is a `Box` (`VolumeBox.java:38`), and `Box.extendToEncompass` returns a new box without changing the receiver (`Box.java:122-124`).
  - Lines 88 and 94 of `WorldSavedDataVolumeBoxes.java` discard that result, so as written the box would not move even if the missing methods existed.
  - The model assigns the result to the box instead.
- The player's look ray (eye position, look vector, scale, rounding to a block) is an oracle, `World.lookingAt`, which answers None when the player is not in the world. Floating point is not modelled.
- The world is a parameter (side, server, block at a position), fixed during a tick.
- `getBoundingBox` equality in the tick is compared as box equality. For integer boxes the two agree.
- `WorldSavedDataVolumeBoxes.java:133-134` builds `new VolumeBox(world)` and calls `readFromNBT`, neither of which exists. The model uses the NBT constructor (`VolumeBox.java:56-83`).

**Codecs and the registry**
- `Lock.java:86` writes the target tag through `PacketBuffer` while the reader at line 62 uses `PacketBufferBC`. Both are modelled as the same enum-ordinal primitive, so any difference between the two encodings is not captured.
- VolumeBoxes.VolumeBox.ToBytes: requires every add-on's class to be registered. The source throws a NullPointerException there part way through the buffer, and the half-written buffer is not modelled. The NBT writers return None instead.
- An unregistered type name in `fromBytes` is modelled as the code has it: its payload is not read, and the stream goes out of step. The round-trip lemmas assume registered names.
- EnumAddonSlot, EnumCause and EnumTarget.
  - EnumAddonSlot is not part of this model. Its constants are the parameter `slotNames`, and `slotCount` for the binary form.
  - EnumCause and EnumTarget are fixed tables of class names.
- `Block.REGISTRY` and `ResourceLocation`: blocks are names, and a registry name reads back as the same block.
  - `Block.getIdFromBlock`/`getBlockById` are a list in which index i has id i + 1.
  - An id that no block has gives no block, where the engine would answer air.
- `PacketBuffer`, `PacketBufferBC` and `ByteBuf` are streams of typed primitives (and bytes for the facade). A read of the wrong kind or past the end fails. `readString`'s length limit is kept; VarInt and UTF-8 lengths are not modelled.
- The `Addon` class is not part of this model. An add-on is its class, the compound its `toBytes` and `writeToNBT` write, and two callback counters.
  - What an add-on's `fromBytes` makes of what it holds and what it reads is the parameter `feed` (type `Feeding`). `readFromNBT` on a new add-on restores the compound written.
  - `postReadFromNbt` (`VolumeBox.java:72`) and what add-ons do in their callbacks are left out.
- VolumeBoxData.SyncConverges: proved only for `Replaces(feed)`, add-ons whose `fromBytes` replaces what they hold. For any other behaviour, VolumeBoxData.SyncDelivers states what the client ends with.
- VolumeBoxData.MergingFeedKeepsStale: an add-on that merges what it reads keeps a key the server dropped, so the client and the server need not agree.
- VolumeBoxData.SyncedAddons and VolumeBoxes.Feed: the payload an add-on ends with is `feed` of its class, what it held and what it read; nothing more is known of add-on classes.
- Nbt.GetUniqueId: answers None unless both halves are stored. NBTTagCompound is not part of this model, so this null-when-absent behaviour is assumed from the `Optional.ofNullable(...)` around it (`VolumeBox.java:58`); `VolumeBoxData.StoredId` falls back to the fresh id on it.
- Nbt.GetInteger, Nbt.GetLong, Nbt.GetDouble and Nbt.GetBoolean: any numeric tag is read, through the narrowing of Java's casts (`MathFloor` for a float read as an int). `NBTPrimitive` is not part of this model, so these conversions are stated from the Java language rules.
- `Box(IBox)`, `Box(IAreaProvider)`, `expand`, `contract`, `extendToEncompass(IBox)`, `extendToEncompassBoth` and `toString` are left out: they delegate to `IBox`, which is not part of this model.
- BoxBase's `getBlocksOnEdge`, `getBlocksOnEdgeCount`, `isCorner`, `isOnEdge` and `isOnFace` are left out, because they delegate to `PositionUtil`, which is not part of this model. The promise that the edge count equals the length of the edge list can therefore not be stated against a definition.

**Plumbing and randomness**
- `MessageManager.sendToDimension` is the `sent` log of box lists, and `super.markDirty()` is the `dirty` flag.
- `BCCoreEventDist` delays a message of the boxes to a joining player (`MessageUtil.doDelayed`, `BCCoreEventDist.java:37-43`). That message is not modelled.
- `MapStorage` is the one-slot `Storage` class. On a client world, `get`'s exception becomes None.
- `UUID.randomUUID()` is a parameter: the `freshId` of a new box, or `ids(k)` for stored entry k.
- Java object aliasing of `Change` objects is not modelled: the change is a value held by its box.
  - VolumeBoxes.VolumeBox.Cancel requires a change. A detached `Change` object that is cancelled again is not modelled.
  - The same holds for VolumeBoxes.VolumeBox.Confirm and VolumeBoxes.VolumeBox.SetPaused.

**Numbers**
- Positions and the energy are unbounded integers, except that `addEnergy` wraps to 32 bits explicitly. `BlockPos`'s packed long encoding is not modelled.
- getEnergyStage: the double division and comparisons are computed on exact reals, so double rounding near a threshold is not modelled. A capacity of 0 follows IEEE semantics: negative energy gives Blue and any other energy gives Explosion. A negative capacity is not treated specially.
- The explosion is counted (`explosions`). `createExplosion`, `explosionRange()` and the tile are left out.

**Facade**
- Facades.FacadePluggable.SetActiveState: requires the states to be present; the source throws a NullPointerException on null states.
- `writeToNBT`/`readFromNBT` of the facade states, `getDropItems`, `getBoundingBox` (float bounds and `MatrixTranformations`) and the renderer are left out.

**Rendering and glue**
- `LaserRenderer_BC8`, `RenderVolumeBoxes`, `WorldEventListenerAdapter`, `SchematicBlockAir`, `SchematicLaserTableBase` and `StatementType` are left out. They draw, or have no behaviour of their own.
