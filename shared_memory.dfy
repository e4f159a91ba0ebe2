/** The System V shared-memory channel of `Utility::SharedMemory` (the
    `__unix__` build): a named segment of `buffer_size_` bytes guarded by a
    named one-counter semaphore used as a mutex. The kernel's IPC tables are
    the `Registry` object; the channel object holds the handles it was given.
    Everything runs in one thread: a `semop` that would block is reported as
    `Pending` instead of suspending, and the wall clock is a sequence of
    readings supplied by the caller. */
module SharedMemories {
  import opened Wrappers
  import Crc32

  type Bytes = seq<bv8>

  /** `IPC_PRIVATE`: the key for which `shmget`/`semget` make a new,
      unnamed object on every call. */
  const Private: int := 0

  /** `key_t key = make_hash(...)`: the 32-bit hash read as a signed `int`. */
  function KeyOf(hash: bv32): (key: int)
    ensures -0x8000_0000 <= key < 0x8000_0000
    ensures key == Private <==> hash == 0
  {
    var h := hash as int;
    if h >= 0x8000_0000 then h - 0x1_0000_0000 else h
  }

  /** `SEMVMX`, the largest value a semaphore counter may take. */
  const SemaphoreMax: int := 32767

  /** The suffix of the derived mutex name, "_MTX". */
  const MutexSuffix: Bytes := [0x5F, 0x4D, 0x54, 0x58]

  /** `n` zero bytes: a new segment, and what `memset(data_, 0, n)` writes. */
  function Zeros(n: nat): (r: Bytes)
    ensures |r| == n && forall i :: 0 <= i < n ==> r[i] == 0
  {
    seq(n, _ => 0)
  }

  /** A shared-memory segment: its contents and `shm_nattch`. */
  datatype Segment = Segment(bytes: Bytes, attachCount: nat)

  /** What a `semop` call reports. `Again` is `EAGAIN` (a non-blocking
      decrement of a zero counter), `WouldBlock` a blocking decrement of a
      zero counter (the caller would sleep), `Invalid` a removed or unknown
      semaphore (`EINVAL`/`EIDRM`) and `Range` an increment beyond `SEMVMX`. */
  datatype SemResult = Done | Again | WouldBlock | Invalid | Range

  /** How `wait_for_single_object` ends: `Acquired` is `true`, `TimedOut` is
      `false`, `Fault` is the `runtime_error` thrown for any `semop` error
      other than `EAGAIN`, and `Pending` means the call has not returned:
      it sleeps in a blocking `semop`, or it is still polling when the
      supplied clock readings run out. */
  datatype WaitOutcome = Acquired | TimedOut | Pending | Fault

  /** The `runtime_error`s the constructor throws. */
  datatype OpenError = ShmgetFailed | SemgetFailed

  /** A snapshot of the registry's tables. */
  datatype Tables = Tables(shmKeys: map<int, nat>, segments: map<nat, Segment>,
                           semKeys: map<int, nat>, semaphores: map<nat, int>, nextId: nat)

  /** The kernel's System V IPC tables, as far as the channel uses them:
      segments and semaphore sets by key and by id. Ids are never reused. */
  class Registry {
    var shmKeys: map<int, nat>
    var segments: map<nat, Segment>
    var semKeys: map<int, nat>
    var semaphores: map<nat, int>
    var nextId: nat
    /** `SHMMAX`: the largest segment `shmget` creates. */
    const segmentSizeLimit: nat
    /** `SHMMNI` and `SEMMNI`: how many segments and semaphore sets may exist. */
    const segmentCapacity: nat
    const semaphoreCapacity: nat

    ghost function Snapshot(): Tables
      reads this
    {
      Tables(shmKeys, segments, semKeys, semaphores, nextId)
    }

    ghost predicate Valid()
      reads this
    {
      Private !in shmKeys && Private !in semKeys &&
      (forall k | k in shmKeys :: shmKeys[k] in segments) &&
      (forall k | k in semKeys :: semKeys[k] in semaphores) &&
      (forall id | id in segments :: id < nextId) &&
      (forall id | id in semaphores :: id < nextId && 0 <= semaphores[id] <= SemaphoreMax)
    }

    constructor (sizeLimit: nat, segmentSlots: nat, semaphoreSlots: nat)
      ensures Valid()
      ensures shmKeys == map[] && segments == map[] && semKeys == map[] && semaphores == map[]
      ensures segmentSizeLimit == sizeLimit && segmentCapacity == segmentSlots
      ensures semaphoreCapacity == semaphoreSlots
    {
      shmKeys, segments, semKeys, semaphores, nextId := map[], map[], map[], map[], 0;
      segmentSizeLimit, segmentCapacity, semaphoreCapacity := sizeLimit, segmentSlots, semaphoreSlots;
    }

    /** `key` names an existing segment, which `shmget(key, 0, 0)` finds. */
    predicate Names(key: int)
      reads this
    {
      key != Private && key in shmKeys
    }

    /** `shmget(key, 0, 0)`: the id of the segment named `key`, or -1. For
        `IPC_PRIVATE` it would make a new segment of size 0, which is
        refused. */
    method ShmFind(key: int) returns (id: int)
      requires Valid()
      ensures id == (if key != Private && key in shmKeys then shmKeys[key] else -1)
    {
      id := if key != Private && key in shmKeys then shmKeys[key] else -1;
    }

    /** `shmget(key, size, IPC_CREAT | IPC_EXCL | 0660)`: a new zeroed
        segment, registered under `key` unless it is `IPC_PRIVATE`; -1 if
        the key is taken, the size is outside [1, SHMMAX] or the table is
        full. */
    method ShmCreate(key: int, size: nat) returns (id: int)
      requires Valid()
      modifies this
      ensures Valid()
      ensures var fails := (key != Private && key in old(shmKeys)) || size < 1
                           || size > segmentSizeLimit || |old(segments)| >= segmentCapacity;
              if fails then id == -1 && Snapshot() == old(Snapshot())
              else
                id == old(nextId) && nextId == old(nextId) + 1 &&
                segments == old(segments)[id := Segment(Zeros(size), 0)] &&
                shmKeys == (if key == Private then old(shmKeys) else old(shmKeys)[key := id]) &&
                semKeys == old(semKeys) && semaphores == old(semaphores)
    {
      if (key != Private && key in shmKeys) || size < 1 || size > segmentSizeLimit
         || |segments| >= segmentCapacity {
        return -1;
      }
      id := nextId;
      segments := segments[id := Segment(Zeros(size), 0)];
      if key != Private {
        shmKeys := shmKeys[key := id];
      }
      nextId := nextId + 1;
      forall k | k in shmKeys
        ensures shmKeys[k] in segments
      {
        if k != key {
          assert k in old(shmKeys) && shmKeys[k] == old(shmKeys)[k];
          assert old(shmKeys)[k] in old(segments);
        }
      }
    }

    /** `shmat`: one more attachment. */
    method ShmAttach(id: nat)
      requires Valid() && id in segments
      modifies this
      ensures Valid()
      ensures segments == old(segments)[id := Segment(old(segments)[id].bytes, old(segments)[id].attachCount + 1)]
      ensures shmKeys == old(shmKeys) && semKeys == old(semKeys) && semaphores == old(semaphores)
      ensures nextId == old(nextId)
    {
      segments := segments[id := Segment(segments[id].bytes, segments[id].attachCount + 1)];
    }

    /** `shmdt`: one attachment fewer. */
    method ShmDetach(id: nat)
      requires Valid() && id in segments && segments[id].attachCount >= 1
      modifies this
      ensures Valid()
      ensures segments == old(segments)[id := Segment(old(segments)[id].bytes, old(segments)[id].attachCount - 1)]
      ensures shmKeys == old(shmKeys) && semKeys == old(semKeys) && semaphores == old(semaphores)
      ensures nextId == old(nextId)
    {
      segments := segments[id := Segment(segments[id].bytes, segments[id].attachCount - 1)];
    }

    /** `memcpy` into the attached segment: the first |data| bytes change. */
    method ShmWrite(id: nat, data: Bytes)
      requires Valid() && id in segments && |data| <= |segments[id].bytes|
      modifies this
      ensures Valid()
      ensures segments == old(segments)[id := Segment(data + old(segments)[id].bytes[|data|..], old(segments)[id].attachCount)]
      ensures shmKeys == old(shmKeys) && semKeys == old(semKeys) && semaphores == old(semaphores)
      ensures nextId == old(nextId)
    {
      segments := segments[id := Segment(data + segments[id].bytes[|data|..], segments[id].attachCount)];
    }

    /** `shmctl(id, IPC_RMID, NULL)` on a segment nobody is attached to:
        it and its key are gone. */
    method ShmRemove(id: nat)
      requires Valid()
      modifies this
      ensures Valid()
      ensures segments == old(segments) - {id}
      ensures shmKeys == old(shmKeys) - (set k | k in old(shmKeys) && old(shmKeys)[k] == id)
      ensures semKeys == old(semKeys) && semaphores == old(semaphores) && nextId == old(nextId)
    {
      shmKeys := shmKeys - (set k | k in shmKeys && shmKeys[k] == id);
      segments := segments - {id};
      forall k | k in shmKeys
        ensures shmKeys[k] in segments
      {
        assert k in old(shmKeys) && old(shmKeys)[k] != id;
        assert old(shmKeys)[k] in old(segments);
        assert shmKeys[k] == old(shmKeys)[k];
      }
    }

    /** `semget(key, 1, 0660)`: the id of the set named `key`, or -1. For
        `IPC_PRIVATE` it makes a new set whose counter is 0. */
    method SemFind(key: int) returns (id: int)
      requires Valid()
      modifies this
      ensures Valid()
      ensures key != Private ==> Snapshot() == old(Snapshot()) && id == (if key in semKeys then semKeys[key] else -1)
      ensures key == Private ==> PrivateSemaphore(old(semaphores), old(nextId), id)
      ensures shmKeys == old(shmKeys) && segments == old(segments) && semKeys == old(semKeys)
    {
      if key != Private {
        id := if key in semKeys then semKeys[key] else -1;
      } else {
        id := NewSemaphore();
      }
    }

    /** `semget(key, 1, IPC_CREAT | IPC_EXCL | 0660)`: a new set with a zero
        counter, registered under `key` unless it is `IPC_PRIVATE`; -1 if the
        key is taken or the table is full. */
    method SemCreate(key: int) returns (id: int)
      requires Valid()
      modifies this
      ensures Valid()
      ensures key != Private && key in old(semKeys) ==> id == -1 && Snapshot() == old(Snapshot())
      ensures key == Private || key !in old(semKeys) ==> PrivateSemaphore(old(semaphores), old(nextId), id)
      ensures semKeys == (if key == Private || id == -1 then old(semKeys) else old(semKeys)[key := id])
      ensures shmKeys == old(shmKeys) && segments == old(segments)
    {
      if key != Private && key in semKeys {
        return -1;
      }
      id := NewSemaphore();
      if key != Private && id != -1 {
        semKeys := semKeys[key := id];
      }
    }

    /** The effect of making a semaphore set that is not registered. */
    ghost predicate PrivateSemaphore(oldSemaphores: map<nat, int>, oldNextId: nat, id: int)
      reads this
    {
      if |oldSemaphores| >= semaphoreCapacity then
        id == -1 && semaphores == oldSemaphores && nextId == oldNextId
      else
        id == oldNextId && nextId == oldNextId + 1 && semaphores == oldSemaphores[id := 0]
    }

    /** The segment table after the constructor's `shmget`, `shmat` and
        `memset`, from the table before it; `id` is the handle, -1 when
        `shmget` failed. */
    ghost predicate SegmentOpened(oldShmKeys: map<int, nat>, oldSegments: map<nat, Segment>, oldNextId: nat,
                                  key: int, size: nat, id: int)
      reads this
    {
      if key != Private && key in oldShmKeys then
        id == oldShmKeys[key] && id in oldSegments && shmKeys == oldShmKeys &&
        segments == oldSegments[id := oldSegments[id].(attachCount := oldSegments[id].attachCount + 1)]
      else if size < 1 || size > segmentSizeLimit || |oldSegments| >= segmentCapacity then
        id == -1 && shmKeys == oldShmKeys && segments == oldSegments
      else
        id == oldNextId && segments == oldSegments[id := Segment(Zeros(size), 1)] &&
        shmKeys == (if key == Private then oldShmKeys else oldShmKeys[key := id])
    }

    /** The semaphore table after `create_mutex` for the set named `key`,
        from the table before it; `id` is the set the channel locks, -1 when
        `semget` failed. Only a set this call created starts unlocked. */
    ghost predicate MutexOpened(oldSemKeys: map<int, nat>, oldSemaphores: map<nat, int>, key: int, id: int)
      reads this
    {
      if key != Private && key in oldSemKeys then
        id == oldSemKeys[key] && semKeys == oldSemKeys && semaphores == oldSemaphores
      else if |oldSemaphores| >= semaphoreCapacity then
        id == -1 && semKeys == oldSemKeys && semaphores == oldSemaphores
      else
        id >= 0 && id !in oldSemaphores &&
        semaphores == oldSemaphores[id := if key == Private then 0 else 1] &&
        semKeys == (if key == Private then oldSemKeys else oldSemKeys[key := id])
    }

    method NewSemaphore() returns (id: int)
      requires Valid()
      modifies this
      ensures Valid()
      ensures PrivateSemaphore(old(semaphores), old(nextId), id)
      ensures shmKeys == old(shmKeys) && segments == old(segments) && semKeys == old(semKeys)
    {
      if |semaphores| >= semaphoreCapacity {
        return -1;
      }
      id := nextId;
      semaphores := semaphores[id := 0];
      nextId := nextId + 1;
      forall k | k in semKeys
        ensures semKeys[k] in semaphores
      {
        assert semKeys[k] in old(semaphores);
      }
    }

    /** `semctl(id, 0, SETVAL, 1)`, whose failure the source ignores. */
    method SemSetOne(id: int)
      requires Valid()
      modifies this
      ensures Valid()
      ensures semaphores == if id >= 0 && id in old(semaphores) then old(semaphores)[id := 1] else old(semaphores)
      ensures shmKeys == old(shmKeys) && segments == old(segments) && semKeys == old(semKeys)
      ensures nextId == old(nextId)
    {
      if id >= 0 && id in semaphores {
        semaphores := semaphores[id := 1];
      }
    }

    /** `semop` with one operation on counter 0: `delta` is -1 (lock) or +1
        (unlock), `noWait` is `IPC_NOWAIT`. */
    method SemOp(id: int, delta: int, noWait: bool) returns (r: SemResult)
      requires Valid() && (delta == -1 || delta == 1)
      modifies this
      ensures Valid()
      ensures r == SemOpResult(old(semaphores), id, delta, noWait)
      ensures semaphores == if r == Done then old(semaphores)[id := old(semaphores)[id] + delta] else old(semaphores)
      ensures shmKeys == old(shmKeys) && segments == old(segments) && semKeys == old(semKeys)
      ensures nextId == old(nextId)
    {
      r := SemOpResult(semaphores, id, delta, noWait);
      if r == Done {
        semaphores := semaphores[id := semaphores[id] + delta];
      }
    }

    /** `semctl(id, IPC_RMID)`: the set and its key are gone. */
    method SemRemove(id: int)
      requires Valid()
      modifies this
      ensures Valid()
      ensures semaphores == old(semaphores) - {id}
      ensures semKeys == old(semKeys) - (set k | k in old(semKeys) && old(semKeys)[k] == id)
      ensures shmKeys == old(shmKeys) && segments == old(segments) && nextId == old(nextId)
    {
      semKeys := semKeys - (set k | k in semKeys && semKeys[k] == id);
      semaphores := semaphores - {id};
      forall k | k in semKeys
        ensures semKeys[k] in semaphores
      {
        assert k in old(semKeys) && old(semKeys)[k] != id;
        assert old(semKeys)[k] in old(semaphores);
        assert semKeys[k] == old(semKeys)[k];
      }
    }
  }

  /** What one `semop` on the counter of `id` does. */
  function SemOpResult(semaphores: map<nat, int>, id: int, delta: int, noWait: bool): (r: SemResult)
    ensures r == Done ==> id >= 0 && id in semaphores
    ensures r == Done && delta == -1 ==> semaphores[id] > 0
    ensures r == Done && delta == 1 ==> semaphores[id] < SemaphoreMax
    ensures r == Invalid <==> id < 0 || id !in semaphores
  {
    if id < 0 || id !in semaphores then Invalid
    else if delta < 0 && semaphores[id] + delta < 0 then (if noWait then Again else WouldBlock)
    else if delta > 0 && semaphores[id] + delta > SemaphoreMax then Range
    else Done
  }

  /** The name of the semaphore the channel `shmemName` locks with: the
      `mutex_name` argument when it is not a null pointer, else the channel
      name followed by "_MTX". `None` is the null pointer. */
  function MutexName(shmemName: Bytes, mutexName: Option<Bytes>): (r: Bytes)
    ensures mutexName.Some? ==> r == mutexName.value
    ensures mutexName.None? ==> |r| == |shmemName| + 4 && r[..|shmemName|] == shmemName && r[|shmemName|..] == MutexSuffix
  {
    match mutexName
    case Some(name) => name
    case None => shmemName + MutexSuffix
  }

  /** The default of the constructor's `mutex_name`: the empty string, which
      is not a null pointer. */
  const DefaultMutexArgument: Option<Bytes> := Some([])

  /** The key of the empty name: `make_hash("")` is 0xFFFFFFFF, -1 as a `key_t`. */
  const DefaultMutexKey: int := -1

  /** The default the derived name is evidently meant for: a null pointer. */
  const IntendedMutexArgument: Option<Bytes> := None

  /** With the default argument every channel locks the semaphore named "",
      whose key is `DefaultMutexKey`. */
  lemma DefaultMutexShared(a: Bytes, b: Bytes)
    ensures MutexName(a, DefaultMutexArgument) == MutexName(b, DefaultMutexArgument) == []
    ensures NameKey(MutexName(a, DefaultMutexArgument)) == DefaultMutexKey
  {
  }

  /** With a null pointer distinct channels get distinct mutex names. */
  lemma IntendedMutexDistinct(a: Bytes, b: Bytes)
    requires a != b
    ensures MutexName(a, IntendedMutexArgument) != MutexName(b, IntendedMutexArgument)
  {
    var ma, mb := MutexName(a, IntendedMutexArgument), MutexName(b, IntendedMutexArgument);
    if |a| == |b| {
      assert ma[..|a|] == a && mb[..|b|] == b;
    } else {
      assert |ma| != |mb|;
    }
  }

  /** The IPC key of a name: `make_hash(name)` read as a signed `int`. */
  function NameKey(name: Bytes): (key: int)
    ensures key == Private <==> Crc32.Crc(name) == 0
  {
    KeyOf(Crc32.Crc(name))
  }

  /** What the constructor leaves behind, from the tables `before` it: the
      segment step of `SegmentOpened` and, when `shmget` succeeded, the
      mutex step of `MutexOpened`; a channel attached to both when it returns. */
  ghost predicate ChannelOpened(os: Registry, before: Tables, shmemKey: int, size: nat, mutexKey: int,
                                r: Result<SharedMemory, OpenError>)
    reads os, if r.Ok? then {r.value} else {}
  {
    match r
    case Err(ShmgetFailed) =>
      os.SegmentOpened(before.shmKeys, before.segments, before.nextId, shmemKey, size, -1) &&
      os.Snapshot() == before
    case Err(SemgetFailed) =>
      (exists shm :: os.SegmentOpened(before.shmKeys, before.segments, before.nextId, shmemKey, size, shm) && shm != -1) &&
      os.MutexOpened(before.semKeys, before.semaphores, mutexKey, -1)
    case Ok(channel) =>
      os.SegmentOpened(before.shmKeys, before.segments, before.nextId, shmemKey, size, channel.shmemHandle) &&
      os.MutexOpened(before.semKeys, before.semaphores, mutexKey, channel.mutexHandle) &&
      channel.os == os && channel.Open() && channel.bufferSize == size
  }

  /** One open channel: `shmem_handle_`, `mutex_handle_`, `buffer_size_`,
      and whether `data_` is attached. */
  class SharedMemory {
    const os: Registry
    var shmemHandle: nat
    var mutexHandle: int
    var bufferSize: nat
    var attached: bool

    /** The channel's segment exists and the channel is attached to it. */
    ghost predicate Open()
      reads this, os
    {
      os.Valid() && attached && shmemHandle in os.segments && os.segments[shmemHandle].attachCount >= 1
    }

    /** `memcpy` of `buffer_size_` bytes stays inside the segment: the
        caller's size does not exceed that of the segment it attached to. */
    predicate InBounds()
      requires Open()
      reads this, os
    {
      bufferSize <= |os.segments[shmemHandle].bytes|
    }

    constructor Attached(os: Registry, shm: nat, mutex: int, size: nat)
      ensures this.os == os && shmemHandle == shm && mutexHandle == mutex
      ensures bufferSize == size && attached
    {
      this.os := os;
      shmemHandle, mutexHandle, bufferSize, attached := shm, mutex, size, true;
    }

    /** `SharedMemory(shmem_name, size, mutex_name)`: attach to the segment
        named `make_hash(shmem_name)` if it exists, whatever its size, or
        else create it with `size` bytes and zero it; then open or create the
        mutex named `make_hash` of the mutex name. A failed `shmget` throws
        before anything changes; a failed `semget` throws with the segment
        left attached. */
    static method Create(os: Registry, shmemName: Bytes, size: nat, mutexName: Option<Bytes>)
      returns (r: Result<SharedMemory, OpenError>)
      requires os.Valid()
      modifies os
      ensures os.Valid()
      ensures ChannelOpened(os, old(os.Snapshot()), NameKey(shmemName), size, NameKey(MutexName(shmemName, mutexName)), r)
      ensures r.Ok? ==> fresh(r.value)
      ensures r.Ok? && !old(os.Names(NameKey(shmemName))) ==> r.value.InBounds()
      ensures r.Ok? && old(os.Names(NameKey(shmemName))) ==>
                (r.value.InBounds() <==> size <= |old(os.segments)[old(os.shmKeys)[NameKey(shmemName)]].bytes|)
    {
      var shmemHash := Crc32.MakeHash(shmemName);
      var mutexHash := Crc32.MakeHash(MutexName(shmemName, mutexName));
      r := OpenChannel(os, KeyOf(shmemHash), size, KeyOf(mutexHash));
    }

    /** The constructor once both names are turned into keys. */
    static method OpenChannel(os: Registry, shmemKey: int, size: nat, mutexKey: int)
      returns (r: Result<SharedMemory, OpenError>)
      requires os.Valid()
      modifies os
      ensures os.Valid()
      ensures ChannelOpened(os, old(os.Snapshot()), shmemKey, size, mutexKey, r)
      ensures r.Ok? ==> fresh(r.value)
      ensures r.Ok? && !old(os.Names(shmemKey)) ==> r.value.InBounds()
      ensures r.Ok? && old(os.Names(shmemKey)) ==>
                (r.value.InBounds() <==> size <= |old(os.segments)[old(os.shmKeys)[shmemKey]].bytes|)
    {
      var shm := OpenSegment(os, shmemKey, size);
      if shm == -1 {
        return Err(ShmgetFailed);
      }
      var mutex := OpenMutex(os, mutexKey);
      if mutex == -1 {
        assert os.SegmentOpened(old(os.shmKeys), old(os.segments), old(os.nextId), shmemKey, size, shm);
        return Err(SemgetFailed);
      }
      var channel := new SharedMemory.Attached(os, shm, mutex, size);
      r := Ok(channel);
    }

    /** The first half of the constructor: `shmget` the segment named `key`,
        or create it exclusively when there is none; `shmat` it; zero it
        when this call created it. -1 when `shmget` fails. */
    static method OpenSegment(os: Registry, key: int, size: nat) returns (shm: int)
      requires os.Valid()
      modifies os
      ensures os.Valid()
      ensures os.SegmentOpened(old(os.shmKeys), old(os.segments), old(os.nextId), key, size, shm)
      ensures shm != -1 ==> shm >= 0 && shm in os.segments && os.segments[shm].attachCount >= 1
      ensures os.semKeys == old(os.semKeys) && os.semaphores == old(os.semaphores)
      ensures os.nextId == if shm == old(os.nextId) then old(os.nextId) + 1 else old(os.nextId)
    {
      var isFirst := false;
      shm := os.ShmFind(key);
      if shm == -1 {
        isFirst := true;
        shm := os.ShmCreate(key, size);
        if shm == -1 {
          return;
        }
      }
      os.ShmAttach(shm);
      if isFirst {
        assert os.segments == old(os.segments)[shm := Segment(Zeros(size), 1)];
        os.ShmWrite(shm, Zeros(size));
        assert Zeros(size)[size..] == [];
        assert Zeros(size) + [] == Zeros(size);
        assert os.segments == old(os.segments)[shm := Segment(Zeros(size), 1)];
      }
    }

    /** `create_mutex(mutex_name)`: the set named `make_hash(mutex_name)`;
        -1 when `semget` fails. */
    static method CreateMutex(os: Registry, mutexName: Bytes) returns (mutex: int)
      requires os.Valid()
      modifies os
      ensures os.Valid()
      ensures os.shmKeys == old(os.shmKeys) && os.segments == old(os.segments)
      ensures os.MutexOpened(old(os.semKeys), old(os.semaphores), NameKey(mutexName), mutex)
    {
      var hash := Crc32.MakeHash(mutexName);
      mutex := OpenMutex(os, KeyOf(hash));
    }

    /** `create_mutex` once the name is turned into `key`: open the set, or
        create it exclusively when there is none; only when this call
        created it is its counter set to 1. */
    static method OpenMutex(os: Registry, key: int) returns (mutex: int)
      requires os.Valid()
      modifies os
      ensures os.Valid()
      ensures os.shmKeys == old(os.shmKeys) && os.segments == old(os.segments)
      ensures os.MutexOpened(old(os.semKeys), old(os.semaphores), key, mutex)
    {
      var isFirst := false;
      mutex := os.SemFind(key);
      if mutex == -1 {
        isFirst := true;
        mutex := os.SemCreate(key);
        if mutex == -1 {
          return;
        }
      }
      if isFirst {
        os.SemSetOne(mutex);
      }
    }

    /** `wait_for_single_object(mutex, timeout_msec)`. A positive timeout
        polls with `IPC_NOWAIT` until a clock reading passes
        `clock[0] + timeout`; any other timeout blocks. `clock[0]` is the
        reading that sets the deadline and `clock[k]` the one taken after
        the k-th failed attempt. Only a successful attempt changes the
        counter. */
    method WaitForSingleObject(mutex: int, timeout: int, clock: seq<int>) returns (r: WaitOutcome)
      requires os.Valid() && |clock| >= 1
      modifies os
      ensures os.Valid()
      ensures os.shmKeys == old(os.shmKeys) && os.segments == old(os.segments)
      ensures os.semKeys == old(os.semKeys) && os.nextId == old(os.nextId)
      ensures r == WaitResult(old(os.semaphores), mutex, timeout, clock)
      ensures os.semaphores == if r == Acquired then old(os.semaphores)[mutex := old(os.semaphores)[mutex] - 1] else old(os.semaphores)
    {
      var end := clock[0] + timeout;
      var k := 1;
      while true
        invariant 1 <= k <= |clock|
        invariant os.Valid() && os.semaphores == old(os.semaphores)
        invariant os.shmKeys == old(os.shmKeys) && os.segments == old(os.segments)
        invariant os.semKeys == old(os.semKeys) && os.nextId == old(os.nextId)
        invariant forall j :: 1 <= j < k ==> clock[j] <= end
        decreases |clock| - k
      {
        var res := os.SemOp(mutex, -1, timeout > 0);
        if res == Done {
          return Acquired;
        } else if res == WouldBlock {
          return Pending;
        } else if res != Again {
          return Fault;
        }
        if k == |clock| {
          return Pending;
        }
        if clock[k] > end {
          return TimedOut;
        }
        k := k + 1;
      }
    }

    /** `release_mutex(mutex)`: add one to the counter, unconditionally;
        `false` stands for the `runtime_error` thrown when `semop` fails. */
    method ReleaseMutex(mutex: int) returns (ok: bool)
      requires os.Valid()
      modifies os
      ensures os.Valid()
      ensures os.shmKeys == old(os.shmKeys) && os.segments == old(os.segments)
      ensures os.semKeys == old(os.semKeys) && os.nextId == old(os.nextId)
      ensures ok <==> mutex >= 0 && mutex in old(os.semaphores) && old(os.semaphores)[mutex] < SemaphoreMax
      ensures os.semaphores == if ok then old(os.semaphores)[mutex := old(os.semaphores)[mutex] + 1] else old(os.semaphores)
    {
      var res := os.SemOp(mutex, 1, false);
      ok := res == Done;
    }

    /** Both `memcpy`s of `buffer_size_` bytes stay inside the segment and
        inside the caller's object of `objectSize` bytes. */
    predicate CopyFits(objectSize: nat)
      requires Open()
      reads this, os
    {
      InBounds() && bufferSize <= objectSize
    }

    /** `try_write(data, timeout_msec)`: under the lock, the first
        `buffer_size_` bytes of the caller's object replace those of the
        segment; without the lock nothing changes. A copy that does not fit
        the segment or the object is undefined behaviour in the source; the
        model stops there and reports `overran`, with the lock still held. */
    method TryWrite(data: Bytes, timeout: int, clock: seq<int>) returns (r: WaitOutcome, overran: bool)
      requires Open() && |clock| >= 1
      modifies os
      ensures Open()
      ensures os.shmKeys == old(os.shmKeys) && os.semKeys == old(os.semKeys) && os.nextId == old(os.nextId)
      ensures r == WaitResult(old(os.semaphores), mutexHandle, timeout, clock)
      ensures overran <==> r == Acquired && !old(CopyFits(|data|))
      ensures os.semaphores == if overran then old(os.semaphores)[mutexHandle := old(os.semaphores)[mutexHandle] - 1]
                               else old(os.semaphores)
      ensures r == Acquired && !overran ==>
                os.segments == old(os.segments)[shmemHandle := Segment(
                  data[..bufferSize] + old(os.segments)[shmemHandle].bytes[bufferSize..],
                  old(os.segments)[shmemHandle].attachCount)]
      ensures r != Acquired || overran ==> os.segments == old(os.segments)
    {
      overran := false;
      var fits := CopyFits(|data|);
      r := WaitForSingleObject(mutexHandle, timeout, clock);
      if r != Acquired {
        return;
      }
      if !fits {
        overran := true;
        return;
      }
      os.ShmWrite(shmemHandle, data[..bufferSize]);
      var released := ReleaseMutex(mutexHandle);
      assert released;
      assert os.semaphores == old(os.semaphores);
    }

    /** `try_read(data, timeout_msec)`: under the lock, the first
        `buffer_size_` bytes of the caller's object are replaced by those of
        the segment; without the lock the object comes back as it was. A
        copy that does not fit is reported as `overran`, as for `TryWrite`. */
    method TryRead(data: Bytes, timeout: int, clock: seq<int>) returns (r: WaitOutcome, overran: bool, result: Bytes)
      requires Open() && |clock| >= 1
      modifies os
      ensures Open()
      ensures os.shmKeys == old(os.shmKeys) && os.semKeys == old(os.semKeys) && os.nextId == old(os.nextId)
      ensures os.segments == old(os.segments)
      ensures r == WaitResult(old(os.semaphores), mutexHandle, timeout, clock)
      ensures overran <==> r == Acquired && !old(CopyFits(|data|))
      ensures os.semaphores == if overran then old(os.semaphores)[mutexHandle := old(os.semaphores)[mutexHandle] - 1]
                               else old(os.semaphores)
      ensures r == Acquired && !overran ==> result == os.segments[shmemHandle].bytes[..bufferSize] + data[bufferSize..]
      ensures r != Acquired || overran ==> result == data
    {
      result, overran := data, false;
      var fits := CopyFits(|data|);
      r := WaitForSingleObject(mutexHandle, timeout, clock);
      if r != Acquired {
        return;
      }
      if !fits {
        overran := true;
        return;
      }
      result := os.segments[shmemHandle].bytes[..bufferSize] + data[bufferSize..];
      var released := ReleaseMutex(mutexHandle);
      assert released;
      assert os.semaphores == old(os.semaphores);
    }

    /** `~SharedMemory()`: detach, and when no process is attached any more
        remove both the segment and the mutex. */
    method Close()
      requires Open()
      modifies this, os
      ensures os.Valid() && !attached
      ensures shmemHandle == old(shmemHandle) && mutexHandle == old(mutexHandle)
      ensures var count := old(os.segments)[shmemHandle].attachCount - 1;
              if count == 0 then
                os.segments == old(os.segments) - {shmemHandle} &&
                os.semaphores == old(os.semaphores) - {mutexHandle}
              else
                os.segments == old(os.segments)[shmemHandle := Segment(old(os.segments)[shmemHandle].bytes, count)] &&
                os.semaphores == old(os.semaphores)
      ensures var count := old(os.segments)[shmemHandle].attachCount - 1;
              if count == 0 then
                os.shmKeys == old(os.shmKeys) - (set k | k in old(os.shmKeys) && old(os.shmKeys)[k] == shmemHandle) &&
                os.semKeys == old(os.semKeys) - (set k | k in old(os.semKeys) && old(os.semKeys)[k] == mutexHandle)
              else
                os.shmKeys == old(os.shmKeys) && os.semKeys == old(os.semKeys)
      ensures os.nextId == old(os.nextId) && bufferSize == old(bufferSize)
    {
      os.ShmDetach(shmemHandle);
      var count := os.segments[shmemHandle].attachCount;
      if count == 0 {
        os.ShmRemove(shmemHandle);
        os.SemRemove(mutexHandle);
      }
      attached := false;
    }
  }

  /** The outcome of `wait_for_single_object` on a counter nobody else
      touches: the first attempt decides, and a failed non-blocking attempt
      is retried until a clock reading passes the deadline. */
  function WaitResult(semaphores: map<nat, int>, mutex: int, timeout: int, clock: seq<int>): (r: WaitOutcome)
    requires |clock| >= 1
    ensures r == Acquired <==> mutex >= 0 && mutex in semaphores && semaphores[mutex] > 0
    ensures r == Fault <==> mutex < 0 || mutex !in semaphores
    ensures r == TimedOut ==> timeout > 0 && exists k :: 1 <= k < |clock| && clock[k] > clock[0] + timeout
    ensures r == Pending ==> timeout <= 0 || forall k :: 1 <= k < |clock| ==> clock[k] <= clock[0] + timeout
  {
    match SemOpResult(semaphores, mutex, -1, timeout > 0)
    case Done => Acquired
    case WouldBlock => Pending
    case Again => if exists k :: 1 <= k < |clock| && clock[k] > clock[0] + timeout then TimedOut else Pending
    case _ => Fault
  }

  // --------------------------------------------------- the default mutex name

  /** Opens two channels on segments named by the distinct keys `shmemKeyA`
      and `shmemKeyB`, the first of them new, both with the mutex named
      `mutexKey`: they lock the same set. */
  method OpenSharing(os: Registry, shmemKeyA: int, shmemKeyB: int, mutexKey: int)
    returns (first: SharedMemory, second: SharedMemory)
    requires os.Valid() && mutexKey != Private
    requires shmemKeyA != Private && shmemKeyA !in os.shmKeys && shmemKeyA != shmemKeyB
    requires |os.segments| + 2 <= os.segmentCapacity && |os.semaphores| + 1 <= os.semaphoreCapacity
    requires os.segmentSizeLimit >= 1
    modifies os
    ensures fresh(first) && fresh(second) && first.os == os && second.os == os && first.Open()
    ensures os.segments[first.shmemHandle].attachCount == 1
    ensures first.mutexHandle == second.mutexHandle
  {
    var r := SharedMemory.OpenChannel(os, shmemKeyA, 1, mutexKey);
    assert r.Ok?;
    first := r.value;
    var s := SharedMemory.OpenChannel(os, shmemKeyB, 1, mutexKey);
    assert s.Ok?;
    second := s.value;
  }

  /** Opens the same two channels with the mutexes named by the distinct
      keys `mutexKeyA` and `mutexKeyB`, the second of them new: they lock
      different sets, and the second starts unlocked. */
  method OpenSeparate(os: Registry, shmemKeyA: int, shmemKeyB: int, mutexKeyA: int, mutexKeyB: int)
    returns (first: SharedMemory, second: SharedMemory)
    requires os.Valid()
    requires shmemKeyA != Private && shmemKeyA !in os.shmKeys && shmemKeyA != shmemKeyB
    requires mutexKeyB != Private && mutexKeyB !in os.semKeys && mutexKeyA != mutexKeyB
    requires |os.segments| + 2 <= os.segmentCapacity && |os.semaphores| + 2 <= os.semaphoreCapacity
    requires os.segmentSizeLimit >= 1
    modifies os
    ensures fresh(first) && fresh(second) && first.os == os && second.os == os && first.Open()
    ensures os.segments[first.shmemHandle].attachCount == 1
    ensures first.mutexHandle != second.mutexHandle
    ensures second.mutexHandle in os.semaphores && os.semaphores[second.mutexHandle] == 1
  {
    var r := SharedMemory.OpenChannel(os, shmemKeyA, 1, mutexKeyA);
    assert r.Ok?;
    first := r.value;
    var s := SharedMemory.OpenChannel(os, shmemKeyB, 1, mutexKeyB);
    assert s.Ok?;
    second := s.value;
  }

  /** A second channel on an existing segment asks for a larger `size`: it
      attaches all the same, to the first channel's segment, and its copies
      do not fit, while the channel that created the segment is in bounds. */
  method LargerChannelOverruns(os: Registry, shmemKey: int, mutexKey: int)
    returns (first: SharedMemory, second: SharedMemory)
    requires os.Valid() && shmemKey != Private && shmemKey !in os.shmKeys && mutexKey != Private
    requires |os.segments| + 1 <= os.segmentCapacity && |os.semaphores| + 1 <= os.semaphoreCapacity
    requires os.segmentSizeLimit >= 1
    modifies os
    ensures first.os == os && second.os == os && first.Open() && second.Open()
    ensures first.shmemHandle == second.shmemHandle
    ensures first.InBounds() && !second.InBounds()
  {
    var r := SharedMemory.OpenChannel(os, shmemKey, 1, mutexKey);
    assert r.Ok?;
    first := r.value;
    var s := SharedMemory.OpenChannel(os, shmemKey, 2, mutexKey);
    assert s.Ok?;
    second := s.value;
  }

  /** Two channels opened with the default `mutex_name` both lock the set
      named `DefaultMutexKey` (`DefaultMutexShared`). When the only process
      attached to the first closes it, the set goes with it and the next
      wait on the second channel throws. */
  method DefaultMutexAsWritten(os: Registry, shmemKeyA: int, shmemKeyB: int, clock: seq<int>) returns (w: WaitOutcome)
    requires os.Valid() && |clock| >= 1
    requires shmemKeyA != Private && shmemKeyA !in os.shmKeys && shmemKeyA != shmemKeyB
    requires |os.segments| + 2 <= os.segmentCapacity && |os.semaphores| + 1 <= os.semaphoreCapacity
    requires os.segmentSizeLimit >= 1
    modifies os
    ensures w == Fault
  {
    var first, second := OpenSharing(os, shmemKeyA, shmemKeyB, DefaultMutexKey);
    first.Close();
    w := second.WaitForSingleObject(second.mutexHandle, 0, clock);
  }

  /** The same two channels with a null `mutex_name`: each locks the set
      named after its own "<name>_MTX" (`IntendedMutexDistinct`), here
      `mutexKeyA` and `mutexKeyB`, and closing the first leaves the second's
      set alone. */
  method DefaultMutexIntended(os: Registry, shmemKeyA: int, shmemKeyB: int, mutexKeyA: int, mutexKeyB: int,
                              clock: seq<int>) returns (w: WaitOutcome)
    requires os.Valid() && |clock| >= 1
    requires shmemKeyA != Private && shmemKeyA !in os.shmKeys && shmemKeyA != shmemKeyB
    requires mutexKeyB != Private && mutexKeyB !in os.semKeys && mutexKeyA != mutexKeyB
    requires |os.segments| + 2 <= os.segmentCapacity && |os.semaphores| + 2 <= os.semaphoreCapacity
    requires os.segmentSizeLimit >= 1
    modifies os
    ensures w == Acquired
  {
    var first, second := OpenSeparate(os, shmemKeyA, shmemKeyB, mutexKeyA, mutexKeyB);
    first.Close();
    w := second.WaitForSingleObject(second.mutexHandle, 0, clock);
  }
}
