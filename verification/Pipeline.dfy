/** From the raw binary to the program in the receiver's flash. */
module Pipeline {
  import opened Crc64
  import opened CrcImage
  import opened FirmwareImage
  import ImageRestore
  import opened Protocol
  import Device
  import opened World
  import opened Transfer
  import opened DataTransfer
  import opened VectorTransfer
  import opened EndToEnd
  import opened UploadSpec
  import opened UploadProps
  import opened DeviceSafety
  import opened Undisturbed
  import opened UndisturbedData
  import opened UndisturbedUpload
  import Bytes

  type Receiver = Device.Device

  lemma WholeWords(sizes: seq<nat>)
    requires ValidMap(sizes)
    ensures forall s | s in sizes :: s % 8 == 0
  {
    forall s | s in sizes
      ensures s % 8 == 0
    {
      var i :| 0 <= i < |sizes| && sizes[i] == s;
      WholeLoops(s);
    }
  }

  /** The upload job for a prepared binary. */
  ghost predicate IsJob(binary: seq<Bytes.Byte>, sizes: seq<nat>, p: Program, job: Job) {
    && job.sizes == sizes
    && job.words == DataWords(binary, p.lenInBytes)
    && Describes(LoadFile(p), job.words, sizes, job.sectors)
  }

  lemma JobFor(binary: seq<Bytes.Byte>, sizes: seq<nat>, p: Program) returns (job: Job)
    requires IsPrepared(binary, sizes, p) && ValidMap(sizes)
    ensures IsJob(binary, sizes, p, job)
  {
    hide Describes, DataWords;
    PreparedDescribes(binary, sizes, p);
    var k :| 1 <= k <= |sizes| && Describes(LoadFile(p), DataWords(binary, p.lenInBytes), sizes, k);
    job := Job(DataWords(binary, p.lenInBytes), sizes, k);
  }

  /** Vector table and data part of the receiver are the binary, followed only by zeros. */
  ghost predicate Restores(binary: seq<Bytes.Byte>, p: Program, vectorTable: seq<Word>, flash: seq<Word>) {
    && |binary| <= p.lenInBytes
    && p.lenInWords <= |flash|
    && Unwords(vectorTable + flash[..p.lenInWords])
       == binary + FirmwareImage.Zeros(p.lenInBytes + VECTOR_TABLE_BYTES - |binary|)
  }

  lemma ImageRestores(
    binary: seq<Bytes.Byte>, sizes: seq<nat>, p: Program, job: Job, vectorTable: seq<Word>, flash: seq<Word>)
    requires IsPrepared(binary, sizes, p) && ValidMap(sizes)
    requires IsJob(binary, sizes, p, job) && vectorTable == p.vectorTable
    requires |job.words| <= |flash| && flash[..|job.words|] == job.words
    ensures Restores(binary, p, vectorTable, flash) <==> ImageRestore.IsRestorable(binary)
  {
    hide Describes, DataWords, Unwords, ImageRestore.IsRestorable;
    WholeWords(sizes);
    ImageRestore.PreparedRestores(binary, sizes, p);
  }

  /**
   * An upload of a prepared binary that returns True has left a flash with the signature of the prepared
   * data, whatever was lost.  If no word was lost after its loop number, the main loop turned between any two
   * events and the receiver has restarted with the new program, then what it starts is the binary, byte for byte,
   * followed only by zeros, exactly if the preparation can be undone for this binary at all.
   */
  lemma BinaryArrives(
    binary: seq<Bytes.Byte>, sizes: seq<nat>, p: Program, info: BootloaderStatus, limits: Limits, bus: Bus, k: nat,
    w: World, fates: seq<Fate>)
    requires IsPrepared(binary, sizes, p) && ValidMap(sizes) && FitsBuffer(sizes) && limits.polls > 0
    requires Holds(sizes, w.device)
    requires IsCurrent(info, w.device)
    requires var o := AppBinary(LoadFile(p), sizes, info, limits, bus, k);
             && o.result == Success
             && |fates| == |o.events|
             && Observe(sizes, w, o.events, fates).Some?
    ensures var events := AppBinary(LoadFile(p), sizes, info, limits, bus, k).events;
            var d := Observe(sizes, w, events, fates).value.device;
            && p.lenInWords <= |d.flash|
            && Chain(d.flash[..p.lenInWords], 0) == Chain(DataWords(binary, p.lenInBytes), 0)
            && (IsIdle(d) ==> Device.IsStartable(d))
            && (IsIdle(d) && IsFaithful(events, fates) ==>
                  (Restores(binary, p, d.record.value.vectorTable, d.flash) <==> ImageRestore.IsRestorable(binary)))
  {
    hide ImageRestore.IsRestorable, Device.IsStartable, Restores;
    hide Holds, Observe, AppBinary, IsFaithful, Describes, Chain, DataWords;
    var job := JobFor(binary, sizes, p);
    var f := LoadFile(p);
    var events := AppBinary(f, sizes, info, limits, bus, k).events;
    UploadInstalls(f, job, info, limits, bus, k, w, fates);
    var d := Observe(sizes, w, events, fates).value.device;
    if IsIdle(d) {
      RecordedStarts(job, f, d, IsFaithful(events, fates), AllWork(fates));
      if IsFaithful(events, fates) {
        ImageRestores(binary, sizes, p, job, d.record.value.vectorTable, d.flash);
      }
    }
  }

  /** What the receiver has recorded passes the check before a program is started. */
  lemma RecordedStarts(job: Job, f: BinaryFile, d: Receiver, faithful: bool, working: bool)
    requires HasImage(job, d.flash, faithful) && IsCommitted(job, f, d, faithful, working) && IsIdle(d)
    ensures Device.IsStartable(d)
    ensures faithful ==> d.record.value.vectorTable == f.vectorTable && d.flash[..|job.words|] == job.words
  {
    hide Chain;
  }

  /** When nothing goes wrong, the binary gets through, if its preparation can be undone. */
  lemma BinaryGoesThrough(
    binary: seq<Bytes.Byte>, sizes: seq<nat>, p: Program, info: BootloaderStatus, limits: Limits, bus: Bus, k: nat,
    w: World, fates: seq<Fate>)
    requires IsPrepared(binary, sizes, p) && ValidMap(sizes) && FitsBuffer(sizes)
    requires UploadSpec.IsComplete(info) && limits.passes > 0 && limits.tries > 0 && limits.polls > 0
    requires Holds(sizes, w.device) && w.device.boot !in {BootRun, BootLeft}
    requires IsCurrent(info, w.device)
    requires var o := AppBinary(LoadFile(p), sizes, info, limits, bus, k);
             |fates| == |o.events| && IsUndisturbed(sizes, w, o.events, fates)
    ensures var o := AppBinary(LoadFile(p), sizes, info, limits, bus, k);
            var d := Reach(sizes, w, o.events, fates).device;
            && (o.result == Success <==> p.lenInBytes <= 0x3E_0000)
            && (o.result == Success && 0 in p.vectorTable ==> d.boot == BootError)
            && (o.result == Success && 0 !in p.vectorTable ==>
                  && Device.IsStartable(d)
                  && (Restores(binary, p, d.record.value.vectorTable, d.flash) <==> ImageRestore.IsRestorable(binary)))
  {
    hide ImageRestore.IsRestorable, Device.IsStartable, Restores, IsIdle;
    hide Holds, Reach, IsUndisturbed, AppBinary, Describes, Chain, DataWords;
    var job := JobFor(binary, sizes, p);
    var f := LoadFile(p);
    JobOf(f, job);
    UndisturbedUploadSucceeds(f, job, info, limits, bus, k, w, fates);
    var o := AppBinary(f, sizes, info, limits, bus, k);
    var d := Reach(sizes, w, o.events, fates).device;
    if o.result == Success && 0 !in p.vectorTable {
      DescribedVector(f, job);
      InstalledStarts(job, f, d);
      ImageRestores(binary, sizes, p, job, d.record.value.vectorTable, d.flash);
    }
  }

  /** A binary of up to 24 bytes is uploaded with the result True, and always refused. */
  lemma ShortIsRefused(
    binary: seq<Bytes.Byte>, sizes: seq<nat>, p: Program, info: BootloaderStatus, limits: Limits, bus: Bus, k: nat,
    w: World, fates: seq<Fate>)
    requires IsPrepared(binary, sizes, p) && ValidMap(sizes) && FitsBuffer(sizes)
    requires |binary| <= 24 && p.lenInBytes <= 0x3E_0000
    requires UploadSpec.IsComplete(info) && limits.passes > 0 && limits.tries > 0 && limits.polls > 0
    requires Holds(sizes, w.device) && w.device.boot !in {BootRun, BootLeft}
    requires IsCurrent(info, w.device)
    requires var o := AppBinary(LoadFile(p), sizes, info, limits, bus, k);
             |fates| == |o.events| && IsUndisturbed(sizes, w, o.events, fates)
    ensures var o := AppBinary(LoadFile(p), sizes, info, limits, bus, k);
            o.result == Success && Reach(sizes, w, o.events, fates).device.boot == BootError
  {
    hide Holds, Reach, IsUndisturbed, AppBinary, IsPrepared, Restores, IsIdle, AtTheBeginning;
    ImageRestore.ShortHasZeroWord(binary, sizes, p);
    BinaryGoesThrough(binary, sizes, p, info, limits, bus, k, w, fates);
  }

  lemma InstalledStarts(job: Job, f: BinaryFile, d: Receiver)
    requires IsInstalled(job, f, d) && 0 !in f.vectorTable && f.vectorCrc == Chain(f.vectorTable, 0)
    ensures Device.IsStartable(d) && d.record.value.vectorTable == f.vectorTable
  {
    hide Chain;
  }

  /** A single wrong word cannot hide: with the signature of the image, the flash is the image. */
  lemma OneWordCannotHide(job: Job, flash: seq<Word>, at: nat, v: Word)
    requires HasImage(job, flash, false) && at < |job.words|
    requires flash[..|job.words|] == job.words[at := v]
    ensures flash[..|job.words|] == job.words
  {
    hide Chain;
    if v != job.words[at] { OneWordChangesChain(job.words, at, v, 0); }
  }

  // ---------- the shipped memory map ----------

  /** `APP_MEMORY_MAP`: sectors 7 to 31 of the flash. */
  const APP_MEMORY_MAP: seq<nat> := seq(25, i => if 3 <= i < 9 then 0x4_0000 else 0x2_0000)

  lemma {:induction false} EqualSectors(sizes: seq<nat>, from: nat, n: nat, size: nat)
    requires from + n <= |sizes| && forall i | from <= i < from + n :: sizes[i] == size
    ensures PrefixSum(sizes, from + n) == PrefixSum(sizes, from) + n * size
  {
    if n > 0 { EqualSectors(sizes, from, n - 1, size); }
  }

  /**
   * The shipped map, 25 sectors of which the fourth to ninth are twice as large as the others, meets what is asked of
   * a map, and all of it together is as much as the receiver takes.
   */
  lemma ShippedMap()
    ensures |APP_MEMORY_MAP| == 25
    ensures forall i | 0 <= i < 25 :: APP_MEMORY_MAP[i] == if 3 <= i <= 8 then 0x4_0000 else 0x2_0000
    ensures ValidMap(APP_MEMORY_MAP) && FitsBuffer(APP_MEMORY_MAP)
    ensures PrefixSum(APP_MEMORY_MAP, |APP_MEMORY_MAP|) == 0x3E_0000
  {
    hide PrefixSum;
    EqualSectors(APP_MEMORY_MAP, 0, 3, 0x2_0000);
    EqualSectors(APP_MEMORY_MAP, 3, 6, 0x4_0000);
    EqualSectors(APP_MEMORY_MAP, 9, 16, 0x2_0000);
    NothingBefore(APP_MEMORY_MAP);
  }

  lemma NothingBefore(sizes: seq<nat>)
    ensures PrefixSum(sizes, 0) == 0
  {
  }

  /** No prepared binary is too large for the receiver. */
  lemma ShippedFits(binary: seq<Bytes.Byte>, p: Program)
    requires IsPrepared(binary, APP_MEMORY_MAP, p)
    ensures p.lenInBytes <= 0x3E_0000
  {
    hide PrefixSum, DataWords;
    ShippedMap();
    var k :| 1 <= k <= |APP_MEMORY_MAP| && PrefixSum(APP_MEMORY_MAP, k) == p.lenInBytes;
    PrefixSumMono(APP_MEMORY_MAP, k, |APP_MEMORY_MAP|);
  }
}
