/**
 * The watcher package's shared types (watcher/interface.go): the event a
 * watcher delivers, and the event-flag word and flag constants of the
 * macOS FSEvents API that the darwin watcher reads.
 */
module Watcher {
  import opened Bytes

  /** `EventType`, an int; only its two named values are ever produced. */
  type EventType = int

  const EventTypeAdd: EventType := 0
  const EventTypeDelete: EventType := 1

  /**
   * A change to a path. The `Dir` field is missing from the interface file's
   * struct, but the daemon and the darwin watcher both use it.
   */
  datatype Event = Event(path: Bytes, eventType: EventType, dir: bool)

  /** `fsevents.EventFlags`, a 32-bit word. */
  type EventFlags = bv32

  const MustScanSubDirs: EventFlags := 0x1
  const UserDropped: EventFlags := 0x2
  const KernelDropped: EventFlags := 0x4
  const EventIDsWrapped: EventFlags := 0x8
  const HistoryDone: EventFlags := 0x10
  const RootChanged: EventFlags := 0x20
  const Mount: EventFlags := 0x40
  const Unmount: EventFlags := 0x80
  const ItemCreated: EventFlags := 0x100
  const ItemRemoved: EventFlags := 0x200
  const ItemInodeMetaMod: EventFlags := 0x400
  const ItemRenamed: EventFlags := 0x800
  const ItemModified: EventFlags := 0x1000
  const ItemFinderInfoMod: EventFlags := 0x2000
  const ItemChangeOwner: EventFlags := 0x4000
  const ItemXattrMod: EventFlags := 0x8000
  const ItemIsFile: EventFlags := 0x10000
  const ItemIsDir: EventFlags := 0x20000
  const ItemIsSymlink: EventFlags := 0x40000
}
