/** Creating body stores, and the global counters of open stores and their sizes. */
module BodyUsage {
  import opened Basics
  import opened BodyStorage

  datatype Config = Config(enabled: bool, thresholdMB: int, maxSizeMB: int)

  function Threshold(c: Config): int { c.thresholdMB * 0x10_0000 }

  function MaxSize(c: Config): int { c.maxSizeMB * 0x10_0000 }

  /** The usage part of the statistics: open disk files and memory buffers, and their bytes. */
  datatype Stats = Stats(diskFiles: int, diskBytes: int, memoryBuffers: int, memoryBytes: int)

  function AddDisk(s: Stats, size: nat): Stats {
    s.(diskFiles := s.diskFiles + 1, diskBytes := s.diskBytes + size)
  }

  function AddMemory(s: Stats, size: nat): Stats {
    s.(memoryBuffers := s.memoryBuffers + 1, memoryBytes := s.memoryBytes + size)
  }

  function Clamped(n: int): nat { if n < 0 then 0 else n }

  /** Closing a disk file clamps its counters at zero; closing a memory buffer does not. */
  function RemoveDisk(s: Stats, size: nat): Stats {
    s.(diskFiles := Clamped(s.diskFiles - 1), diskBytes := Clamped(s.diskBytes - size))
  }

  function RemoveMemory(s: Stats, size: nat): Stats {
    s.(memoryBuffers := s.memoryBuffers - 1, memoryBytes := s.memoryBytes - size)
  }

  predicate Available(c: Config, s: Stats, size: int) {
    c.enabled && s.diskBytes + size <= MaxSize(c)
  }

  // ---------------------------------------------------------------- creation

  datatype Creation = Stored(disk: bool, size: nat) | TooLarge | DiskFailed

  /** Storing bytes already in memory; a failing disk falls back to memory. */
  function CreateFromBytes(c: Config, s: Stats, size: nat, diskOk: bool): Creation {
    Stored(c.enabled && size >= Threshold(c) && Available(c, s, size) && diskOk, size)
  }

  /** Storing what a reader yields, `size` bytes in all, of which it declared `declared`. */
  function CreateFromReader(c: Config, s: Stats, size: nat, declared: int, maxBytes: int, diskOk: bool): Creation {
    if c.enabled && declared > 0 && declared >= Threshold(c) && Available(c, s, declared) then
      if !diskOk then DiskFailed
      else if size > maxBytes then TooLarge
      else Stored(true, size)
    else if size > maxBytes then TooLarge
    else CreateFromBytes(c, s, size, diskOk)
  }

  function Count(s: Stats, r: Creation): Stats {
    if !r.Stored? then s else if r.disk then AddDisk(s, r.size) else AddMemory(s, r.size)
  }

  /** What io.LimitReader lets through. */
  function Limited(bytes: seq<Byte>, limit: int): seq<Byte> {
    if limit <= 0 then [] else if |bytes| <= limit then bytes else bytes[..limit]
  }

  datatype Handle = NoStore | Memory(memory: MemoryStorage) | Disk(store: DiskStorage)

  ghost function Parts(h: Handle): set<object> {
    match h case NoStore => {} case Memory(m) => {m, m.slice} case Disk(d) => {d, d.file}
  }

  ghost predicate Valid(h: Handle)
    reads Parts(h)
  {
    match h case NoStore => true case Memory(m) => m.Valid() case Disk(d) => d.Valid()
  }

  ghost function View(h: Handle): Body
    requires !h.NoStore?
    reads Parts(h)
  {
    match h case Memory(m) => m.Abstract() case Disk(d) => d.Abstract()
  }

  /** A store of its own, not yet read. */
  twostate predicate FreshStore(new h: Handle, data: seq<Byte>)
    reads Parts(h)
  {
    !h.NoStore? && fresh(Parts(h)) && Valid(h) && View(h) == Body(data, 0, false)
  }

  class Cache {
    const config: Config
    var stats: Stats

    method NewMemoryStorage(data: seq<Byte>) returns (h: Handle)
      modifies this`stats
      ensures h.Memory? && FreshStore(h, data) && stats == AddMemory(old(stats), |data|)
    {
      stats := stats.(memoryBuffers := stats.memoryBuffers + 1);
      stats := stats.(memoryBytes := stats.memoryBytes + |data|);
      var slice := NewSlice(data);
      var m := new MemoryStorage(slice);
      h := Memory(m);
    }

    method NewDiskStorage(data: seq<Byte>) returns (h: Handle)
      modifies this`stats
      ensures h.Disk? && FreshStore(h, data) && stats == AddDisk(old(stats), |data|)
    {
      var file := new File();
      var d := new DiskStorage(data, file);
      stats := stats.(diskFiles := stats.diskFiles + 1);
      stats := stats.(diskBytes := stats.diskBytes + |data|);
      h := Disk(d);
    }

    method CreateBodyStorage(data: seq<Byte>, diskOk: bool) returns (h: Handle)
      modifies this`stats
      ensures FreshStore(h, data) && h.Disk? == CreateFromBytes(config, old(stats), |data|, diskOk).disk
      ensures stats == Count(old(stats), CreateFromBytes(config, old(stats), |data|, diskOk))
    {
      if config.enabled && |data| >= Threshold(config) && Available(config, stats, |data|) && diskOk {
        h := NewDiskStorage(data);
      } else {
        h := NewMemoryStorage(data);
      }
    }

    method CreateBodyStorageFromReader(body: seq<Byte>, declared: int, maxBytes: int, diskOk: bool)
      returns (r: Creation, h: Handle)
      modifies this`stats
      ensures r == CreateFromReader(config, old(stats), |body|, declared, maxBytes, diskOk)
      ensures stats == Count(old(stats), r)
      ensures diskOk ==> (r.Stored? <==> |body| <= maxBytes)
      ensures if r.Stored? then FreshStore(h, body) && h.Disk? == r.disk else h.NoStore?
    {
      h := NoStore;
      var read := Limited(body, maxBytes + 1);
      assert |read| <= maxBytes <==> |body| <= maxBytes;
      if config.enabled && declared > 0 && declared >= Threshold(config) && Available(config, stats, declared) {
        if !diskOk {
          return DiskFailed, NoStore;
        }
        if |read| > maxBytes {
          return TooLarge, NoStore;
        }
        h := NewDiskStorage(read);
        return Stored(true, |read|), h;
      }
      if |read| > maxBytes {
        return TooLarge, NoStore;
      }
      h := CreateBodyStorage(read, diskOk);
      r := Stored(h.Disk?, |read|);
    }

    /** Closing a store takes it off the counters the first time only. */
    method CloseStore(h: Handle)
      requires Valid(h)
      modifies this`stats, Parts(h)
      ensures Valid(h) && (h.NoStore? ==> stats == old(stats))
      ensures !h.NoStore? ==> View(h) == old(View(h)).(closed := true)
      ensures h.Memory? ==>
        stats == if old(h.memory.closed) then old(stats) else RemoveMemory(old(stats), h.memory.size)
      ensures h.Disk? ==>
        stats == if old(h.store.closed) then old(stats) else RemoveDisk(old(stats), h.store.size)
    {
      match h {
        case NoStore =>
        case Memory(m) => {
          var first := m.Close();
          if first {
            stats := RemoveMemory(stats, m.size);
          }
        }
        case Disk(d) => {
          var first := d.Close();
          if first {
            stats := stats.(diskFiles := stats.diskFiles - 1);
            if stats.diskFiles < 0 {
              stats := stats.(diskFiles := 0);
            }
            stats := stats.(diskBytes := stats.diskBytes - d.size);
            if stats.diskBytes < 0 {
              stats := stats.(diskBytes := 0);
            }
          }
        }
      }
    }
  }

  // ---------------------------------------------------------------- one request

  const DEFAULT_MAX_MB := 128

  function MaxBytes(maxMB: int): int {
    (if maxMB <= 0 then DEFAULT_MAX_MB else maxMB) * 0x10_0000
  }

  class Request {
    var storage: Handle
    var oldBody: seq<Byte>
    var hasOldBody: bool
    const body: seq<Byte>
    const declared: int
    var bodyOpen: bool

    /** What the request carries: an open store, a body kept in the older way, or its own body. */
    ghost function Carried(): seq<Byte>
      reads this, Parts(storage)
    {
      if !storage.NoStore? then View(storage).data else if hasOldBody then oldBody else body
    }

    /** On success the store holds the carried body and stands at its start; a store that exists is
        rewound and not made again.  The request's own body is read and closed once, so a call after a
        failed creation fails as well. */
    method GetRequestBody(cache: Cache, maxMB: int, diskOk: bool) returns (ok: bool, h: Handle)
      requires Valid(storage)
      modifies this`storage, this`bodyOpen, cache`stats, Parts(storage)
      ensures ok ==> !h.NoStore? && storage == h && Valid(h) && View(h) == Body(old(Carried()), 0, false)
      ensures !old(storage).NoStore? ==> h == old(storage) && (ok <==> !old(View(storage)).closed)
      ensures old(storage).NoStore? && diskOk ==>
        (ok <==> hasOldBody || (old(bodyOpen) && |body| <= (if maxMB <= 0 then 128 else maxMB) * 1_048_576))
      ensures bodyOpen == (old(bodyOpen) && (!old(storage).NoStore? || hasOldBody))
      ensures old(storage).NoStore? && !hasOldBody && !old(bodyOpen) ==> !ok
      ensures !ok ==> storage == old(storage)
      ensures cache.stats ==
        if ok && old(storage).NoStore? then Count(old(cache.stats), Stored(h.Disk?, |old(Carried())|))
        else old(cache.stats)
    {
      h := storage;
      match h {
        case Memory(m) => {
          var r := m.Seek(0, FromStart);
          ok := !r.ClosedError?;
        }
        case Disk(d) => {
          var r := d.Seek(0, FromStart);
          ok := !r.ClosedError?;
        }
        case NoStore => {
          if hasOldBody {
            h := cache.CreateBodyStorage(oldBody, diskOk);
            ok := true;
          } else if !bodyOpen {
            ok := false;
          } else {
            bodyOpen := false;
            var r;
            r, h := cache.CreateBodyStorageFromReader(body, declared, MaxBytes(maxMB), diskOk);
            ok := r.Stored?;
          }
          if ok {
            storage := h;
          }
        }
      }
    }
  }
}
