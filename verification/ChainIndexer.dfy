/**
 Background indexing of fixed-size chain sections (core/chain_indexer.go). A section is read header
 by header with the lock released while head events, reorganisations and queries interleave; a
 completed section is recorded by the hash of its last block.
 */
module ChainIndexers {
  import opened Common
  import opened ChainTree

  /** The all-zero hash: no section head, and the parent of the genesis block. */
  const ZERO: Hash := 0

  /** Walking parents from the header `h` with number `n` down to number `m` ends at `target`. */
  ghost predicate Reaches(u: Store, h: Hash, n: int, target: Hash, m: int)
    requires m <= n
    decreases n - m
  {
    if n == m then h == target
    else GetBlock(u, h, n).Some? && Reaches(u, u[h].parent, n - 1, target, m)
  }

  /** A number index whose entries are stored headers, each the parent of the next. */
  ghost predicate LinkedCanon(u: Store, canon: map<nat, Hash>) {
    forall n: nat :: n in canon ==>
      GetBlock(u, canon[n], n).Some? && (n > 0 ==> n - 1 in canon && u[canon[n]].parent == canon[n - 1])
  }

  /** What a canonical header descends from is canonical. */
  lemma {:induction false} CanonReaches(u: Store, canon: map<nat, Hash>, n: nat, target: Hash, m: nat)
    requires LinkedCanon(u, canon) && n in canon && m <= n && Reaches(u, canon[n], n, target, m)
    ensures m in canon && canon[m] == target
    decreases n
  {
    if m < n {
      CanonReaches(u, canon, n - 1, target, m);
    }
  }

  /** The number of the last block before section `i`. */
  function Boundary(size: nat, i: nat): int {
    i * size - 1
  }

  lemma Boundaries(size: nat, i: nat)
    requires size > 0
    ensures Boundary(size, i) + size == Boundary(size, i + 1) && -1 <= Boundary(size, i)
  {
  }

  /**
   Section heads exist exactly for sections `lo` up to `stored`, and each one is the
   section-size-step descendant of the one before, the first of all of the genesis block's parent.
   */
  ghost predicate Chained(u: Store, size: nat, heads: map<nat, Hash>, lo: nat, stored: nat) {
    && size > 0 && (lo < stored || (lo == 0 && stored == 0))
    && (forall i: nat :: i in heads <==> lo <= i < stored)
    && (forall i: nat :: i in heads ==> heads[i] != ZERO)
    && (forall i: nat :: lo < i < stored ==> SectionLink(u, size, heads, i))
    && (lo == 0 < stored ==> Boundary(size, 0) <= Boundary(size, 1) && Reaches(u, heads[0], Boundary(size, 1), ZERO, Boundary(size, 0)))
  }

  ghost predicate SectionLink(u: Store, size: nat, heads: map<nat, Hash>, i: nat) {
    && i > 0 && i in heads && i - 1 in heads && Boundary(size, i) <= Boundary(size, i + 1)
    && Reaches(u, heads[i], Boundary(size, i + 1), heads[i - 1], Boundary(size, i))
  }

  lemma ChainedCut(u: Store, size: nat, heads: map<nat, Hash>, lo: nat, stored: nat)
    requires Chained(u, size, heads, lo, stored) && stored > 0
    ensures lo < stored - 1 || lo == 0 ==> Chained(u, size, heads - {stored - 1}, lo, stored - 1)
    ensures lo == stored - 1 ==> heads - {stored - 1} == map[]
  {
    var less := heads - {stored - 1};
    forall i: nat | lo < i < stored - 1 ensures SectionLink(u, size, less, i) {
      assert SectionLink(u, size, heads, i);
    }
  }

  /** Recording one more section. */
  lemma ChainedGrows(u: Store, size: nat, heads: map<nat, Hash>, lo: nat, stored: nat, h: Hash)
    requires Chained(u, size, heads, lo, stored) && ZERO !in u
    requires Boundary(size, stored) < Boundary(size, stored + 1)
    requires Reaches(u, h, Boundary(size, stored + 1), if stored == 0 then ZERO else heads[stored - 1], Boundary(size, stored))
    ensures Chained(u, size, heads[stored := h], lo, stored + 1)
  {
    var more := heads[stored := h];
    forall i: nat | lo < i < stored + 1 ensures SectionLink(u, size, more, i) {
      if i < stored { assert SectionLink(u, size, heads, i); }
      Boundaries(size, i);
    }
  }

  /** When the last section head is canonical, all of them are. */
  lemma {:induction false} AllCanonical(u: Store, size: nat, heads: map<nat, Hash>, lo: nat, stored: nat, canon: map<nat, Hash>, i: nat)
    requires Chained(u, size, heads, lo, stored) && LinkedCanon(u, canon) && lo <= i < stored
    requires Boundary(size, stored) in canon && canon[Boundary(size, stored)] == heads[stored - 1]
    ensures Boundary(size, i + 1) in canon && canon[Boundary(size, i + 1)] == heads[i]
    decreases stored - i
  {
    if i < stored - 1 {
      AllCanonical(u, size, heads, lo, stored, canon, i + 1);
      assert SectionLink(u, size, heads, i + 1);
      Boundaries(size, i + 1);
      Boundaries(size, i);
      CanonReaches(u, canon, Boundary(size, i + 2), heads[i], Boundary(size, i + 1));
    }
  }

  /** Section processing: `last` is the newest header read of `section`, `number` the next one to read. */
  datatype Job =
    | Idle
    | Reading(section: nat, oldHead: Hash, number: nat, last: Hash)
    | Ended(section: nat, oldHead: Hash, newHead: Hash, ok: bool)

  /** What has been read since the lock was released continues the old section head. */
  ghost predicate JobOk(u: Store, size: nat, stored: nat, job: Job) {
    match job
    case Idle => true
    case Reading(section, oldHead, number, last) =>
      && stored <= section && (section == 0 <==> oldHead == ZERO)
      && Boundary(size, section) < number <= Boundary(size, section + 1) + 1
      && Reaches(u, last, number - 1, oldHead, Boundary(size, section))
    case Ended(section, oldHead, newHead, ok) =>
      && stored <= section && (section == 0 <==> oldHead == ZERO)
      && (ok ==> Boundary(size, section) < Boundary(size, section + 1) &&
                 Reaches(u, newHead, Boundary(size, section + 1), oldHead, Boundary(size, section)))
  }

  datatype Cascade = Quiet | Notify(head: int, reorg: bool)

  class ChainIndexer {
    /** All headers that ever exist; a hash stands for one header. */
    const headers: Store
    const size: nat
    const confirms: nat
    const checkpointSections: nat
    const checkpointHead: Hash
    var stored: nat
    var known: nat
    var cascaded: nat
    var heads: map<nat, Hash>
    var job: Job
    /** The first section with a head: 0, or the checkpoint's section. */
    ghost var lo: nat

    ghost predicate Valid()
      reads this`stored, this`heads, this`job, this`lo
    {
      && Chained(headers, size, heads, lo, stored) && ZERO !in headers
      && (lo == 0 || lo + 1 == checkpointSections)
      && JobOk(headers, size, stored, job)
    }

    /** A fresh indexer, or one that starts at a checkpoint. */
    constructor (headers: Store, size: nat, confirms: nat, checkpointSections: nat, checkpointHead: Hash)
      requires size > 0 && ZERO !in headers && (checkpointSections > 0 ==> checkpointHead != ZERO)
      requires checkpointSections == 1 ==> Reaches(headers, checkpointHead, Boundary(size, 1), ZERO, Boundary(size, 0))
      ensures Valid() && job == Idle && stored == checkpointSections && known == 0
    {
      this.headers, this.size, this.confirms := headers, size, confirms;
      this.checkpointSections, this.checkpointHead := checkpointSections, checkpointHead;
      stored, known, cascaded, job := checkpointSections, 0, 0, Idle;
      heads := if checkpointSections > 0 then map[checkpointSections - 1 := checkpointHead] else map[];
      lo := if checkpointSections > 0 then checkpointSections - 1 else 0;
    }

    function SectionHead(i: nat): Hash
      reads this`heads
    {
      if i in heads then heads[i] else ZERO
    }

    /** Lowers the number of valid sections, dropping the heads above. */
    method SetValidSections(sections: nat)
      requires Chained(headers, size, heads, lo, stored) && ZERO !in headers && JobOk(headers, size, stored, job)
      requires lo == 0 || lo + 1 == checkpointSections
      requires sections <= stored && (lo < sections || lo == 0 || sections == 0)
      modifies this`stored, this`heads, this`lo
      ensures Valid() && stored == sections && lo == (if sections == 0 then 0 else old(lo))
      ensures heads == Below(old(heads), sections)
    {
      hide Chained, JobOk;
      AllBelow(headers, size, heads, lo, stored);
      if sections == 0 {
        while stored > sections
          invariant forall i: nat :: i in heads <==> i in old(heads) && i < stored
          invariant forall i: nat :: i in heads ==> heads[i] == old(heads)[i]
          invariant stored <= old(stored)
        {
          stored := stored - 1;
          heads := heads - {stored};
        }
        NoSections(headers, size, old(heads), old(lo), old(stored), heads);
        lo := 0;
      } else {
        while stored > sections
          invariant lo == old(lo) && sections <= stored <= old(stored) && Chained(headers, size, heads, lo, stored)
          invariant forall i: nat :: i in heads <==> i in old(heads) && i < stored
          invariant forall i: nat :: i in heads ==> heads[i] == old(heads)[i]
        {
          ChainedCut(headers, size, heads, lo, stored);
          stored := stored - 1;
          heads := heads - {stored};
        }
      }
      JobStays(headers, size, old(stored), stored, job);
    }

    /**
     Drops section heads until the last one is canonical. Checking that one head is enough: with
     more sections than the checkpoint covers, every recorded head is then canonical.
     */
    method VerifyLastHead(canon: map<nat, Hash>)
      requires Valid()
      modifies this`stored, this`heads, this`lo
      ensures Valid() && stored <= old(stored) && heads == Below(old(heads), stored)
      ensures old(stored) <= checkpointSections ==> stored == old(stored)
      ensures old(stored) > checkpointSections ==> stored >= checkpointSections
      ensures forall i: nat :: stored <= i < old(stored) ==> i in old(heads) && CanonAt(canon, Boundary(size, i + 1)) != Some(old(heads)[i])
      ensures LinkedCanon(headers, canon) && stored > checkpointSections ==>
                forall i: nat :: i in heads ==> CanonAt(canon, Boundary(size, i + 1)) == Some(heads[i])
    {
      hide Chained, JobOk, LinkedCanon;
      AllBelow(headers, size, heads, lo, stored);
      ghost var all := heads;
      while stored > 0 && stored > checkpointSections
        invariant Valid() && stored <= old(stored) && (old(stored) > checkpointSections ==> stored >= checkpointSections)
        invariant old(stored) <= checkpointSections ==> stored == old(stored)
        invariant heads == Below(all, stored)
        invariant forall i: nat :: stored <= i < old(stored) ==> i in all && CanonAt(canon, Boundary(size, i + 1)) != Some(all[i])
        decreases stored
      {
        LastPresent(headers, size, heads, lo, stored);
        if CanonAt(canon, Boundary(size, stored)) == Some(SectionHead(stored - 1)) {
          if LinkedCanon(headers, canon) {
            HeadsCanonical(headers, size, heads, lo, stored, canon);
          }
          return;
        }
        SetValidSections(stored - 1);
      }
    }

    /**
     A reorganisation to the common ancestor `head`: afterwards no section is known or recorded
     that ends above it, checkpoint aside, and no more is dropped than that.
     */
    method Reorged(head: nat) returns (cascade: Cascade)
      requires Valid()
      modifies this`stored, this`known, this`cascaded, this`heads, this`lo
      ensures Valid() && heads == Below(old(heads), stored) && stored <= old(stored)
      ensures known <= old(known) && cascaded <= old(cascaded)
      ensures Boundary(size, known) <= head && (known == 0 || known >= checkpointSections || known == old(known))
      ensures Boundary(size, stored) <= head || stored <= checkpointSections
      ensures stored < old(stored) ==> stored >= checkpointSections && head < Boundary(size, stored + 1)
      ensures cascade == if cascaded < old(cascaded) then Notify(cascaded, true) else Quiet
    {
      hide Chained, JobOk, Boundary, Below;
      cascade := Quiet;
      HasSize(headers, size, heads, lo, stored);
      AllBelow(headers, size, heads, lo, stored);
      var complete := (head + 1) / size;
      SectionsUpTo(size, head + 1);
      var k := if complete < checkpointSections then 0 else complete;
      var keep := if complete < checkpointSections then checkpointSections else complete;
      BoundaryGrows(size, complete, keep);
      BoundaryGrows(size, known, complete);
      BoundaryGrows(size, stored, keep);
      BoundaryGrows(size, complete + 1, keep + 1);
      BoundaryGrows(size, 0, complete);
      if k < known {
        known := k;
      }
      if keep < stored {
        KeepsCheckpoint(headers, size, heads, lo, stored, checkpointSections, keep);
        SetValidSections(keep);
      }
      var finished := k * size;
      if finished < cascaded {
        cascaded := finished;
        cascade := Notify(cascaded, true);
      }
    }

    /** A new head without reorganisation: a section becomes known only with all its confirmations. */
    method Advanced(head: nat, canon: map<nat, Hash>)
      requires Valid()
      modifies this`known
      ensures Valid() && known >= old(known)
      ensures known > old(known) ==>
                && Boundary(size, known) + confirms <= head < Boundary(size, known + 1) + confirms && known >= checkpointSections
                && (old(known) < checkpointSections ==> CanonAt(canon, Boundary(size, checkpointSections)) == Some(checkpointHead))
    {
      hide Chained, JobOk;
      HasSize(headers, size, heads, lo, stored);
      if head >= confirms {
        var sections := (head + 1 - confirms) / size;
        SectionsUpTo(size, head + 1 - confirms);
        if sections < checkpointSections {
          sections := 0;
        }
        if sections > known {
          if known < checkpointSections {
            var synced := CanonAt(canon, Boundary(size, checkpointSections));
            if synced != Some(checkpointHead) {
              return;
            }
          }
          known := sections;
        }
      }
    }

    /** The update loop takes up the next section and releases the lock. */
    method Begin(canon: map<nat, Hash>)
      requires Valid() && job == Idle
      modifies this`stored, this`heads, this`lo, this`job
      ensures Valid() && stored <= old(stored) && heads == Below(old(heads), stored)
      ensures known <= old(stored) ==> job == Idle && stored == old(stored)
      ensures known > old(stored) ==>
                var last := if stored == 0 then ZERO else SectionHead(stored - 1);
                job == Reading(stored, last, stored * size, last)
    {
      hide Chained, JobOk;
      AllBelow(headers, size, heads, lo, stored);
      if known > stored {
        VerifyLastHead(canon);
        var oldHead := ZERO;
        if stored > 0 {
          LastPresent(headers, size, heads, lo, stored);
          oldHead := SectionHead(stored - 1);
        }
        job := Reading(stored, oldHead, stored * size, oldHead);
        JobStarts(headers, size, stored, oldHead, heads, lo);
      }
    }

    /** The backend refuses to start over: all sections are dropped. */
    method ResetFails()
      requires Valid() && job.Reading?
      modifies this`stored, this`heads, this`lo, this`job
      ensures Valid() && stored == 0 && heads == map[] && job.Ended? && !job.ok
    {
      hide Chained, JobOk;
      AllBelow(headers, size, heads, lo, stored);
      SetValidSections(0);
      JobFails(headers, size, stored, job);
      job := Ended(job.section, job.oldHead, ZERO, false);
    }

    /**
     Reads the next header of the section, without the lock: whatever `hash` is canonical at this
     moment is accepted only when it continues the header read before.
     */
    method ReadNext(hash: Option<Hash>, present: bool, processed: bool)
      requires Valid() && job.Reading?
      modifies this`job
      ensures Valid() && (job.Reading? || job.Ended?) && job.section == old(job).section && job.oldHead == old(job).oldHead
      ensures job.Reading? ==> job.number == old(job).number + 1 && hash == Some(job.last)
      ensures job.Ended? && job.ok ==> old(job).number == (old(job).section + 1) * size && job.newHead == old(job).last
    {
      hide Chained;
      HasSize(headers, size, heads, lo, stored);
      var section, oldHead := job.section, job.oldHead;
      if job.number == (section + 1) * size {
        Boundaries(size, section);
        job := Ended(section, oldHead, job.last, true);
        return;
      }
      if hash.None? || !present || GetBlock(headers, hash.value, job.number).None? || headers[hash.value].parent != job.last || !processed {
        job := Ended(section, oldHead, ZERO, false);
        return;
      }
      job := Reading(section, oldHead, job.number + 1, hash.value);
    }

    /** A backend failure after the last header. */
    method CommitFails()
      requires Valid() && job.Ended?
      modifies this`job
      ensures Valid() && job == old(job).(ok := false)
    {
      job := job.(ok := false);
    }

    /**
     Back under the lock: the section is recorded when it was read completely and the section
     before it is still the one it continues.
     */
    method Finish(canon: map<nat, Hash>) returns (cascade: Cascade)
      requires Valid() && job.Ended?
      modifies this`stored, this`heads, this`lo, this`known, this`cascaded, this`job
      ensures Valid() && job == Idle
      ensures var j := old(job);
              var records := j.ok && old(stored) == j.section && (j.section == 0 || old(SectionHead(job.section - 1)) == j.oldHead);
              && (records ==> stored == old(stored) + 1 && heads == old(heads)[j.section := j.newHead] && known == old(known)
                              && cascaded == Boundary(size, stored) && cascade == Notify(cascaded, false))
              && (!records ==> stored <= old(stored) && heads == Below(old(heads), stored) && known == stored && cascade == Quiet)
    {
      hide Chained, JobOk;
      AllBelow(headers, size, heads, lo, stored);
      cascade := Quiet;
      var section, oldHead := job.section, job.oldHead;
      StillThere(headers, size, heads, lo, stored, job);
      if job.ok && (section == 0 || oldHead == SectionHead(section - 1)) {
        heads := heads[section := job.newHead];
        stored := section + 1;
        Boundaries(size, section);
        cascaded := stored * size - 1;
        job := Idle;
        cascade := Notify(cascaded, false);
      } else {
        job := Idle;
        VerifyLastHead(canon);
        known := stored;
      }
    }

    /** The number of sections, their last block and its hash, checked against the canonical chain. */
    method Sections(canon: map<nat, Hash>) returns (count: nat, block: int, head: Hash)
      requires Valid()
      modifies this`stored, this`heads, this`lo
      ensures Valid() && stored <= old(stored) && heads == Below(old(heads), stored)
      ensures count == stored && block == Boundary(size, count) && head == (if count == 0 then ZERO else SectionHead(count - 1))
      ensures LinkedCanon(headers, canon) && count > checkpointSections ==>
                && CanonAt(canon, block) == Some(head)
                && forall i: nat :: i in heads ==> CanonAt(canon, Boundary(size, i + 1)) == Some(heads[i])
    {
      hide Chained, JobOk, LinkedCanon;
      VerifyLastHead(canon);
      if stored > 0 {
        LastPresent(headers, size, heads, lo, stored);
        return stored, stored * size - 1, SectionHead(stored - 1);
      }
      return 0, -1, ZERO;
    }

    /** One event, taken when the job allows it. */
    method Step(e: Event)
      requires Valid()
      modifies this
      ensures Valid()
    {
      hide Chained, JobOk, LinkedCanon;
      match e {
        case HeadEvent(head, canon) => Advanced(head, canon);
        case ReorgEvent(head) => var _ := Reorged(head);
        case Query(canon) => var _, _, _ := Sections(canon);
        case Tick(canon) => if job == Idle { Begin(canon); }
        case ResetFailure => if job.Reading? { ResetFails(); }
        case HeaderRead(hash, present, processed) => if job.Reading? { ReadNext(hash, present, processed); }
        case CommitFailure => if job.Ended? { CommitFails(); }
        case Relock(canon) => if job.Ended? { var _ := Finish(canon); }
      }
    }

    /**
     In every interleaving the section heads stay chained, so that one check of the last one
     against whatever the canonical chain has become makes all of them canonical.
     */
    method Run(events: seq<Event>, canon: map<nat, Hash>) returns (count: nat)
      requires Valid()
      modifies this
      ensures Valid() && count == stored
      ensures forall i: nat :: i in heads <==> lo <= i < count
      ensures LinkedCanon(headers, canon) && count > checkpointSections ==>
                forall i: nat :: i in heads ==> CanonAt(canon, Boundary(size, i + 1)) == Some(heads[i])
    {
      hide JobOk, LinkedCanon, SectionLink;
      for i := 0 to |events|
        invariant Valid()
      {
        Step(events[i]);
      }
      var block, head;
      count, block, head := Sections(canon);
    }
  }

  /** Everything that can happen, with the canonical chain or header seen at that moment. */
  datatype Event =
    | HeadEvent(head: nat, canon: map<nat, Hash>)
    | ReorgEvent(head: nat)
    | Query(canon: map<nat, Hash>)
    | Tick(canon: map<nat, Hash>)
    | ResetFailure
    | HeaderRead(hash: Option<Hash>, present: bool, processed: bool)
    | CommitFailure
    | Relock(canon: map<nat, Hash>)

  lemma JobStarts(u: Store, size: nat, stored: nat, oldHead: Hash, heads: map<nat, Hash>, lo: nat)
    requires Chained(u, size, heads, lo, stored) && (stored == 0 <==> oldHead == ZERO)
    ensures JobOk(u, size, stored, Reading(stored, oldHead, stored * size, oldHead)) && JobOk(u, size, stored, Idle)
  {
    Boundaries(size, stored);
  }

  lemma JobFails(u: Store, size: nat, stored: nat, job: Job)
    requires JobOk(u, size, stored, job) && job.Reading?
    ensures JobOk(u, size, stored, Ended(job.section, job.oldHead, ZERO, false))
  {
  }

  /** A recorded section before the one just read means nothing was dropped meanwhile. */
  lemma StillThere(u: Store, size: nat, heads: map<nat, Hash>, lo: nat, stored: nat, job: Job)
    requires Chained(u, size, heads, lo, stored) && ZERO !in u && JobOk(u, size, stored, job) && job.Ended?
    ensures size > 0 && JobOk(u, size, stored, Idle) && JobOk(u, size, stored + 1, Idle)
    ensures var section := job.section;
            job.ok && (section == 0 || (section - 1 in heads && job.oldHead == heads[section - 1])) ==>
              stored == section && Chained(u, size, heads[section := job.newHead], lo, stored + 1)
    ensures job.section > 0 ==> job.oldHead != ZERO
  {
    var section := job.section;
    if job.ok && (section == 0 || (section - 1 in heads && job.oldHead == heads[section - 1])) {
      ChainedGrows(u, size, heads, lo, stored, job.newHead);
    }
  }

  lemma BoundaryGrows(size: nat, i: nat, j: nat)
    ensures i <= j ==> Boundary(size, i) <= Boundary(size, j)
  {
    if i <= j {
      assert j * size == i * size + (j - i) * size;
    }
  }

  function Below(heads: map<nat, Hash>, n: nat): map<nat, Hash> {
    map i | i in heads && i < n :: heads[i]
  }

  lemma HasSize(u: Store, size: nat, heads: map<nat, Hash>, lo: nat, stored: nat)
    requires Chained(u, size, heads, lo, stored)
    ensures size > 0
  {
  }

  lemma SectionsUpTo(size: nat, blocks: nat)
    requires size > 0
    ensures var k := blocks / size;
            Boundary(size, k) < blocks && Boundary(size, k + 1) >= blocks
  {
    assert blocks == (blocks / size) * size + blocks % size;
  }

  lemma KeepsCheckpoint(u: Store, size: nat, heads: map<nat, Hash>, lo: nat, stored: nat, checkpoint: nat, keep: nat)
    requires Chained(u, size, heads, lo, stored) && (lo == 0 || lo + 1 == checkpoint) && checkpoint <= keep < stored
    ensures lo < keep || lo == 0
  {
  }

  function CanonAt(canon: map<nat, Hash>, n: int): Option<Hash> {
    if n in canon then Some(canon[n]) else None
  }

  lemma LastPresent(u: Store, size: nat, heads: map<nat, Hash>, lo: nat, stored: nat)
    requires Chained(u, size, heads, lo, stored) && stored > 0
    ensures stored - 1 in heads && heads[stored - 1] != ZERO && lo < stored
  {
  }

  lemma HeadsCanonical(u: Store, size: nat, heads: map<nat, Hash>, lo: nat, stored: nat, canon: map<nat, Hash>)
    requires Chained(u, size, heads, lo, stored) && LinkedCanon(u, canon) && stored > 0 && stored - 1 in heads
    requires CanonAt(canon, Boundary(size, stored)) == Some(heads[stored - 1])
    ensures forall i: nat :: i in heads ==> CanonAt(canon, Boundary(size, i + 1)) == Some(heads[i])
  {
    forall i: nat | i in heads ensures CanonAt(canon, Boundary(size, i + 1)) == Some(heads[i]) {
      AllCanonical(u, size, heads, lo, stored, canon, i);
    }
  }

  lemma NoSections(u: Store, size: nat, heads: map<nat, Hash>, lo: nat, stored: nat, less: map<nat, Hash>)
    requires Chained(u, size, heads, lo, stored) && forall i: nat :: i !in less
    ensures less == map[] && Chained(u, size, less, 0, 0)
  {
  }

  lemma AllBelow(u: Store, size: nat, heads: map<nat, Hash>, lo: nat, stored: nat)
    requires Chained(u, size, heads, lo, stored)
    ensures (forall i: nat :: i in heads ==> i < stored) && Below(heads, stored) == heads
  {
  }

  lemma JobStays(u: Store, size: nat, stored: nat, less: nat, job: Job)
    requires JobOk(u, size, stored, job) && less <= stored
    ensures JobOk(u, size, less, job)
  {
  }
}
