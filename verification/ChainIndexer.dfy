/** The chain indexer (core/chain_indexer.go): it indexes the chain in sections of
    fixed size without locking the chain, so any two reads of the chain may see
    different chains. Reads of the canonical index are therefore arbitrary hashes.
 */
module ChainIndexers {
  import opened Chains

  /** The hash k parent steps below h; EMPTY behind genesis or an unknown block. */
  ghost function ParentSteps(world: Headers, h: Hash, k: nat): Hash
    decreases k
  {
    if k == 0 then h else if h in world then ParentSteps(world, world[h].parent, k - 1) else EMPTY
  }

  lemma {:induction false} StepsAreAncestors(world: Headers, genesis: Hash, h: Hash, k: nat)
    requires Tree(world, genesis) && h in world && k <= world[h].number
    ensures ParentSteps(world, h, k) == AncestorAt(world, genesis, h, world[h].number - k)
    decreases k
  {
    if k > 0 {
      AncestorStep(world, genesis, h, world[h].number - k);
      assert Placed(world, genesis, h);
      StepsAreAncestors(world, genesis, world[h].parent, k - 1);
    }
  }

  /** The stored head of a section; EMPTY if none is stored. */
  function SectionHead(heads: map<nat, Hash>, section: nat): Hash {
    if section in heads then heads[section] else EMPTY
  }

  /** The head of section s is its last block, `size` parent steps above the head of
      the section before (behind genesis for the first). */
  ghost predicate SectionLinked(heads: map<nat, Hash>, world: Headers, size: nat, s: nat) {
    && s in heads && heads[s] in world && world[heads[s]].number + 1 == (s + 1) * size
    && ParentSteps(world, heads[s], size) == if s == 0 then EMPTY else SectionHead(heads, s - 1)
  }

  /** Linked section heads hang together: if the last one is on a canonical chain,
      all of them are, down to the checkpoint. */
  lemma {:induction false} OneComparisonSuffices(heads: map<nat, Hash>, world: Headers, genesis: Hash, size: nat,
                                                 checkpoint: nat, stored: nat, canon: map<nat, Hash>, head: Hash,
                                                 s: nat)
    requires Tree(world, genesis) && size > 0 && Canonical(canon, world, genesis, head)
    requires forall t :: checkpoint <= t < stored ==> SectionLinked(heads, world, size, t)
    requires checkpoint < stored && HasSection(canon, size, stored - 1, SectionHead(heads, stored - 1))
    requires checkpoint <= s < stored
    ensures HasSection(canon, size, s, SectionHead(heads, s))
    decreases stored - s
  {
    if s < stored - 1 {
      OneComparisonSuffices(heads, world, genesis, size, checkpoint, stored, canon, head, s + 1);
      assert SectionLinked(heads, world, size, s + 1) && SectionLinked(heads, world, size, s);
      var h := heads[s + 1];
      assert (s + 2) * size == (s + 1) * size + size;
      StepsAreAncestors(world, genesis, h, size);
      SharedBelow(canon, world, genesis, head, h, world[h].number, (s + 1) * size - 1);
    }
  }

  /** The index has h at the last block of section s. */
  ghost predicate HasSection(canon: map<nat, Hash>, size: nat, s: int, h: Hash) {
    (s + 1) * size - 1 in canon && canon[(s + 1) * size - 1] == h
  }

  /** All section heads below a limit and no others. */
  ghost predicate RolledBack(before: map<nat, Hash>, after: map<nat, Hash>, limit: nat) {
    (forall s :: s in after <==> s in before && s < limit) && forall s :: s in after ==> after[s] == before[s]
  }

  class ChainIndexer {
    const world: Headers          // every header there is, by hash
    ghost const genesis: Hash
    const sectionSize: nat
    const confirmsReq: nat
    const checkpointSections: nat
    const checkpointHead: Hash

    var heads: map<nat, Hash>     // section heads in the index database
    var storedSections: nat
    var knownSections: nat

    ghost predicate Valid()
      reads this
    {
      && Tree(world, genesis) && world[genesis].parent == EMPTY && sectionSize > 0
      && (forall s :: s in heads ==> s < storedSections && heads[s] != EMPTY)
      && (forall s :: checkpointSections <= s < storedSections ==> SectionLinked(heads, world, sectionSize, s))
    }

    /** A fresh indexer with its checkpoint, if any, already added. */
    constructor (world: Headers, ghost genesis: Hash, size: nat, confirms: nat, checkpoint: nat, shead: Hash)
      requires Tree(world, genesis) && world[genesis].parent == EMPTY && size > 0
      requires checkpoint > 0 ==> shead != EMPTY
      ensures Valid() && storedSections == checkpoint == checkpointSections && knownSections == 0
      ensures checkpoint > 0 ==> SectionHead(heads, checkpoint - 1) == shead
    {
      this.world, this.genesis, sectionSize, confirmsReq := world, genesis, size, confirms;
      checkpointSections, checkpointHead := checkpoint, shead;
      storedSections, knownSections := checkpoint, 0;
      heads := if checkpoint > 0 then map[checkpoint - 1 := shead] else map[];
    }

    method SetValidSections(sections: nat)
      requires Valid() && sections <= storedSections
      modifies this`heads, this`storedSections
      ensures Valid() && storedSections == sections
      ensures heads == map s | s in old(heads) && s < sections :: old(heads)[s]
    {
      while storedSections > sections
        invariant Valid() && sections <= storedSections <= old(storedSections)
        invariant heads == map s | s in old(heads) && s < storedSections :: old(heads)[s]
      {
        ghost var before := heads;
        storedSections := storedSections - 1;
        heads := heads - {storedSections};
        forall s | checkpointSections <= s < storedSections ensures SectionLinked(heads, world, sectionSize, s) {
          assert SectionLinked(before, world, sectionSize, s);
        }
      }
    }

    /** Rolls back sections until the last stored head was just seen on the chain, or
        only the checkpoint is left; only sections whose head was not what was read go.
        `readings` are the hashes read, `seen` the last one. */
    method VerifyLastHead() returns (seen: Hash, ghost readings: seq<Hash>)
      requires Valid()
      modifies this`heads, this`storedSections
      ensures Valid() && storedSections <= old(storedSections)
      ensures storedSections > checkpointSections ==> SectionHead(heads, storedSections - 1) == seen
      ensures heads == map s | s in old(heads) && s < storedSections :: old(heads)[s]
      ensures |readings| >= old(storedSections) - storedSections
      ensures forall i :: 0 <= i < old(storedSections) - storedSections ==>
                readings[i] != SectionHead(old(heads), old(storedSections) - 1 - i)
    {
      seen, readings := EMPTY, [];
      while storedSections > 0 && storedSections > checkpointSections
        invariant Valid() && storedSections <= old(storedSections) && |readings| == old(storedSections) - storedSections
        invariant heads == map s | s in old(heads) && s < storedSections :: old(heads)[s]
        invariant forall i :: 0 <= i < |readings| ==>
                  readings[i] != SectionHead(old(heads), old(storedSections) - 1 - i)
      {
        seen := *;  // ReadCanonicalHash at the section's last block
        readings := readings + [seen];
        if SectionHead(heads, storedSections - 1) == seen {
          return;
        }
        SetValidSections(storedSections - 1);
      }
    }

    /** Reports the stored sections and the last section head, which was just seen on
        the chain: whatever linked chain has it there has all section heads above the
        checkpoint. Only sections whose head was not what was read are forgotten. */
    method Sections() returns (sections: nat, head: Hash, ghost readings: seq<Hash>)
      requires Valid()
      modifies this`heads, this`storedSections
      ensures Valid() && sections == storedSections <= old(storedSections) && RolledBack(old(heads), heads, sections)
      ensures |readings| >= old(storedSections) - sections
      ensures forall i :: 0 <= i < old(storedSections) - sections ==>
                readings[i] != SectionHead(old(heads), old(storedSections) - 1 - i)
      ensures sections > 0 ==> head == SectionHead(heads, sections - 1)
      ensures forall canon: map<nat, Hash>, top: Hash ::
        Canonical(canon, world, genesis, top) && HasSection(canon, sectionSize, sections - 1, head) ==>
          forall s :: checkpointSections <= s < sections ==> HasSection(canon, sectionSize, s, SectionHead(heads, s))
    {
      var seen;
      seen, readings := VerifyLastHead();
      sections := storedSections;
      head := if sections > 0 then SectionHead(heads, sections - 1) else EMPTY;
      forall canon: map<nat, Hash>, top: Hash, s |
        Canonical(canon, world, genesis, top) && HasSection(canon, sectionSize, sections - 1, head)
          && checkpointSections <= s < sections
        ensures HasSection(canon, sectionSize, s, SectionHead(heads, s))
      {
        OneComparisonSuffices(heads, world, genesis, sectionSize, checkpointSections, sections, canon, top, s);
      }
    }

    /** A new chain head, or a reorganisation down to `head`. `synced` is the canonical
        hash read at the end of the checkpoint. */
    method NewHead(head: nat, reorg: bool, synced: Hash)
      requires Valid()
      modifies this`heads, this`storedSections, this`knownSections
      ensures Valid() && storedSections <= old(storedSections) && RolledBack(old(heads), heads, storedSections)
      ensures reorg ==>
        var known := (head + 1) / sectionSize;
        && storedSections == Min(old(storedSections), Max(known, checkpointSections))
        && knownSections == Min(old(knownSections), if known < checkpointSections then 0 else known)
      ensures !reorg ==> storedSections == old(storedSections) && heads == old(heads)
      ensures !reorg ==>
        var sections := if head >= confirmsReq then (head + 1 - confirmsReq) / sectionSize else 0;
        knownSections == if sections > old(knownSections) && sections >= checkpointSections
                            && (old(knownSections) >= checkpointSections || synced == checkpointHead)
                         then sections else old(knownSections)
      ensures !reorg && knownSections != old(knownSections) ==>
        && old(knownSections) < knownSections && checkpointSections <= knownSections
        && knownSections * sectionSize <= head + 1 - confirmsReq < (knownSections + 1) * sectionSize
        && (old(knownSections) < checkpointSections ==> synced == checkpointHead)
    {
      if reorg {
        var known := (head + 1) / sectionSize;
        var stored := known;
        if known < checkpointSections {
          known := 0;
        }
        if stored < checkpointSections {
          stored := checkpointSections;
        }
        if known < knownSections {
          knownSections := known;
        }
        if stored < storedSections {
          SetValidSections(stored);
        }
        return;
      }
      if head >= confirmsReq {
        var sections := (head + 1 - confirmsReq) / sectionSize;
        SectionBounds(head + 1 - confirmsReq, sectionSize);
        if sections < checkpointSections {
          sections := 0;
        }
        if sections > knownSections {
          if knownSections < checkpointSections && synced != checkpointHead {
            return;
          }
          knownSections := sections;
        }
      }
    }

    /** Anything others may do while the update loop is off the lock: the event loop handles
        new heads, and callers ask for the sections. */
    method Others()
      requires Valid()
      modifies this`heads, this`storedSections, this`knownSections
      ensures Valid() && storedSections <= old(storedSections) && RolledBack(old(heads), heads, storedSections)
    {
      var events: nat := *;
      while events > 0
        invariant Valid() && storedSections <= old(storedSections) && RolledBack(old(heads), heads, storedSections)
      {
        var asked: bool := *;
        if asked {
          var sections, last, readings := Sections();
        } else {
          var head: nat, reorg: bool, synced: Hash := *, *, *;
          NewHead(head, reorg, synced);
        }
        events := events - 1;
      }
    }

    /** Reads a section block by block, each time from whatever the chain is then. */
    method ProcessSection(section: nat, lastHead: Hash) returns (ok: bool, head: Hash)
      requires Valid()
      modifies this`heads, this`storedSections, this`knownSections
      ensures Valid() && storedSections <= old(storedSections) && RolledBack(old(heads), heads, storedSections)
      ensures ok ==> head in world && world[head].number + 1 == (section + 1) * sectionSize
      ensures ok ==> ParentSteps(world, head, sectionSize) == lastHead
      ensures ok ==> (lastHead == EMPTY <==> section == 0)
    {
      head := lastHead;
      var resetFails: bool := *;
      if resetFails {
        SetValidSections(0);
        return false, EMPTY;
      }
      var number := section * sectionSize;
      ghost var first := number;
      ghost var done := 0;
      while number < (section + 1) * sectionSize
        invariant first <= number <= (section + 1) * sectionSize && done == number - first
        invariant Valid() && storedSections <= old(storedSections) && RolledBack(old(heads), heads, storedSections)
        invariant ParentSteps(world, head, done) == lastHead
        invariant done > 0 ==> head in world && world[head].number + 1 == number
        invariant done > 0 ==> (lastHead == EMPTY <==> section == 0)
      {
        Others();
        var hash: Hash := *;            // ReadCanonicalHash
        var readable: bool := *;        // ReadHeader may find nothing
        if hash !in world || world[hash].number != number || !readable {
          return false, EMPTY;
        }
        var header := world[hash];
        if header.parent != head {
          return false, EMPTY;
        }
        assert Placed(world, genesis, hash);
        assert header.parent in world ==> Placed(world, genesis, header.parent);
        var backendFails: bool := *;
        if backendFails {
          return false, EMPTY;
        }
        head := header.hash;
        number := number + 1;
        done := done + 1;
      }
      ok := true;
    }

    /** One round of the update loop: lock, verify, unlock, process, lock, store. Unless
        there is nothing to do, it either stores the processed section on top of the
        sections it found, or gives up until the next notification; with the section
        processed only because a reorganisation took the section before away. */
    method Update() returns (ok: bool, stored: bool, ghost section: nat, ghost before: map<nat, Hash>)
      requires Valid()
      modifies this`heads, this`storedSections, this`knownSections
      ensures Valid() && storedSections <= old(storedSections) + 1 && (stored ==> ok)
      ensures old(knownSections <= storedSections) ==>
                !ok && heads == old(heads) && storedSections == old(storedSections)
                  && knownSections == old(knownSections)
      ensures stored ==> storedSections == section + 1 && heads.Keys == before.Keys + {section} && section !in before
                         && forall s :: s in before ==> heads[s] == before[s]
      ensures old(knownSections > storedSections) && !stored ==> knownSections == storedSections
      ensures ok && !stored ==> section > 0 && storedSections < section
    {
      ok, stored, section, before := false, false, 0, heads;
      if knownSections <= storedSections {
        return;
      }
      var seen, readings := VerifyLastHead();
      var next := storedSections;
      section := next;
      var oldHead := if next > 0 then SectionHead(heads, next - 1) else EMPTY;
      var head;
      ok, head := ProcessSection(next, oldHead);
      Others();
      if ok && (next == 0 || oldHead == SectionHead(heads, next - 1)) {
        assert storedSections == next;
        assert Placed(world, genesis, head);
        before, stored := heads, true;
        heads := heads[next := head];
        storedSections := next + 1;
        forall s | checkpointSections <= s < storedSections ensures SectionLinked(heads, world, sectionSize, s) {
          assert s < section ==> SectionLinked(before, world, sectionSize, s);
        }
      } else {
        seen, readings := VerifyLastHead();
        knownSections := storedSections;
      }
    }
  }

  function Min(a: nat, b: nat): nat { if a <= b then a else b }

  function Max(a: nat, b: nat): nat { if a <= b then b else a }

  lemma SectionBounds(blocks: nat, size: nat)
    requires size > 0
    ensures blocks / size * size <= blocks < (blocks / size + 1) * size
  {
  }
}
