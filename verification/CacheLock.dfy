// What a clean makes of the file at a lock's path.

/** `open_lock`, `lock_is_held` and the answer of `remove_if_unlocked` in cache.rs, over
    whatever is found at the lock's path. */
module CacheLock {

  /** Whether somebody holds the lock of an opened file; `Broken` fails to tell. */
  datatype LockState = Free | Held | Broken

  /** What is at a lock's path: the entry's directory is gone, or has no lock file (which
      this process may or may not create), or holds a link, a directory, or a file. */
  datatype LockFile =
    | DirectoryGone
    | Absent(creatable: bool)
    | Symlink
    | Directory(readable: bool)
    | Regular(owned: bool, readable: bool, writable: bool, state: LockState)

  datatype Access = Read | Write

  datatype Opening = Nothing | Refused | Failed | Opened(state: LockState)

  /** `open_lock`: reading never creates and needs no write permission; writing opens for
      both and creates. A directory opens for reading, and is then refused, but does not
      open for writing. */
  function OpenLock(f: LockFile, access: Access): Opening {
    match f
    case DirectoryGone => Nothing
    case Absent(creatable) => if access == Read then Nothing else if creatable then Opened(Free) else Failed
    case Symlink => Refused
    case Directory(readable) => if access == Read && readable then Refused else Failed
    case Regular(owned, readable, writable, state) =>
      if !readable || (access == Write && !writable) then Failed
      else if !owned then Refused
      else Opened(state)
  }

  datatype Answer = Idle | Busy | Unsafe | Error

  /** `lock_is_held`, which a plan asks. */
  function LockIsHeld(f: LockFile): Answer {
    match OpenLock(f, Read)
    case Nothing => Idle
    case Refused => Unsafe
    case Failed => Error
    case Opened(state) => if state == Free then Idle else if state == Held then Busy else Error
  }

  /** What `remove_if_unlocked` answers an apply; `removable` says whether removing the
      directory succeeds. */
  function RemoveIfUnlocked(f: LockFile, removable: bool): Answer {
    match OpenLock(f, Write)
    case Nothing => Idle
    case Refused => Unsafe
    case Failed => Error
    case Opened(state) => if state == Held then Busy else if state == Free && removable then Idle else Error
  }

  /** The shapes on which an apply fails where a plan sees no failure: a lock file that
      cannot be created, a readable directory in its place, a file that can be read but
      not written, and a free lock of a directory that cannot be removed. */
  predicate Misleads(f: LockFile, removable: bool) {
    match f
    case DirectoryGone => false
    case Absent(creatable) => !creatable || !removable
    case Symlink => false
    case Directory(readable) => readable
    case Regular(owned, readable, writable, state) =>
      readable && (if owned then state != Broken && (!writable || (state == Free && !removable)) else !writable)
  }

  /** Plan and apply judge a lock alike exactly when its shape does not mislead; when it
      does, it is the apply that fails. */
  lemma AgreeExactly(f: LockFile, removable: bool)
    ensures LockIsHeld(f) == RemoveIfUnlocked(f, removable) <==> !Misleads(f, removable)
    ensures Misleads(f, removable) ==> RemoveIfUnlocked(f, removable) == Error
  {
  }
}
