/**
 The pool's bookkeeping as values (core/tx_pool.go, core/tx_noncer.go): the hash lookup, the
 per-account lists and what it means for them to agree.
 */
module PoolState {
  import opened Transactions
  import opened AccountLists
  import Sums

  ghost function Weights(m: map<Hash, Tx>): map<Hash, int> {
    map h | h in m :: m[h].Slots()
  }

  /** All known transactions by hash, local and remote ones apart, with the slots they use. */
  datatype Lookup = Lookup(locals: map<Hash, Tx>, remotes: map<Hash, Tx>, slots: int)
  {
    function All(): map<Hash, Tx> {
      remotes + locals
    }

    ghost predicate Ok() {
      && locals.Keys !! remotes.Keys
      && (forall h :: h in All() ==> All()[h].hash == h)
      && slots == Sums.Sum(Weights(All()))
    }

    function Add(tx: Tx, local: bool): Lookup {
      if local then Lookup(locals[tx.hash := tx], remotes, slots + tx.Slots())
      else Lookup(locals, remotes[tx.hash := tx], slots + tx.Slots())
    }

    function Remove(hash: Hash): Lookup {
      if hash in All()
      then Lookup(locals - {hash}, remotes - {hash}, slots - All()[hash].Slots())
      else this
    }

    function Migrating(accounts: set<Address>): map<Hash, Tx> {
      map h | h in remotes && remotes[h].from in accounts :: remotes[h]
    }

    /** Moves the remote transactions of local accounts to the local side. */
    function RemoteToLocals(accounts: set<Address>): Lookup {
      Lookup(locals + Migrating(accounts), remotes - Migrating(accounts).Keys, slots)
    }
  }

  lemma LookupAdd(l: Lookup, tx: Tx, local: bool)
    requires l.Ok() && tx.hash !in l.All()
    ensures l.Add(tx, local).Ok() && l.Add(tx, local).All() == l.All()[tx.hash := tx]
  {
    hide Weights;
    assert l.Add(tx, local).All() == l.All()[tx.hash := tx];
    WeightsUpdate(l.All(), tx);
    Sums.SumUpdate(Weights(l.All()), tx.hash, tx.Slots());
  }

  lemma WeightsUpdate(m: map<Hash, Tx>, tx: Tx)
    ensures Weights(m[tx.hash := tx]) == Weights(m)[tx.hash := tx.Slots()]
    ensures tx.hash in Weights(m) <==> tx.hash in m
  {
  }

  lemma LookupRemove(l: Lookup, hash: Hash)
    requires l.Ok()
    ensures l.Remove(hash).Ok() && l.Remove(hash).All() == l.All() - {hash}
    ensures l.Remove(hash).remotes == l.remotes - {hash}
  {
    assert l.Remove(hash).All() == l.All() - {hash};
    if hash in l.All() {
      assert Weights(l.All() - {hash}) == Weights(l.All()) - {hash};
      Sums.SumWithout(Weights(l.All()), hash);
    }
  }

  lemma LookupMigrate(l: Lookup, accounts: set<Address>)
    requires l.Ok()
    ensures l.RemoteToLocals(accounts).Ok() && l.RemoteToLocals(accounts).All() == l.All()
  {
    assert l.RemoteToLocals(accounts).All() == l.All();
  }

  type Book = map<Address, List>

  function At(m: Book, a: Address, strict: bool): List {
    if a in m then m[a] else EmptyList(strict)
  }

  /** Stores `l` for `a`; an empty list is deleted instead. */
  function Store(m: Book, a: Address, l: List): Book {
    if l.txs == map[] then m - {a} else m[a := l]
  }

  ghost predicate Member(l: List, tx: Tx) {
    tx.nonce in l.txs && l.txs[tx.nonce] == tx
  }

  ghost predicate Holds(m: Book, tx: Tx) {
    tx.from in m && Member(m[tx.from], tx)
  }

  /** `l` is a well-formed list of account `a`. */
  ghost predicate OwnList(l: List, a: Address, strict: bool) {
    l.Ok() && l.strict == strict && forall n :: n in l.txs ==> l.txs[n].from == a
  }

  ghost predicate BookOk(m: Book, strict: bool) {
    forall a :: a in m ==> OwnList(m[a], a, strict) && m[a].txs != map[]
  }

  ghost predicate DisjointNonces(p: Book, q: Book) {
    forall a :: a in p && a in q ==> p[a].txs.Keys !! q[a].txs.Keys
  }

  /** The lookup holds exactly the pending and queued transactions. */
  ghost predicate Matches(p: Book, q: Book, all: map<Hash, Tx>) {
    && (forall h :: h in all ==> all[h].hash == h && (Holds(p, all[h]) || Holds(q, all[h])))
    && (forall tx: Tx :: Holds(p, tx) || Holds(q, tx) ==> tx.hash in all && all[tx.hash] == tx)
  }

  /** Pending, queue and lookup agree: no empty list, no shared nonce, nothing missing, nothing extra. */
  ghost predicate Partition(p: Book, q: Book, all: map<Hash, Tx>) {
    BookOk(p, true) && BookOk(q, false) && DisjointNonces(p, q) && Matches(p, q, all)
  }

  lemma StoreOk(m: Book, a: Address, l: List, strict: bool)
    requires BookOk(m, strict) && OwnList(l, a, strict)
    ensures BookOk(Store(m, a, l), strict)
    ensures forall b :: b != a ==> At(Store(m, a, l), b, strict) == At(m, b, strict)
    ensures At(Store(m, a, l), a, strict).txs == l.txs
    ensures forall tx: Tx :: Holds(Store(m, a, l), tx) <==> if tx.from == a then Member(l, tx) else Holds(m, tx)
  {
  }

  /** A list is always well formed, also the empty one an absent account stands for. */
  lemma AtOk(m: Book, a: Address, strict: bool)
    requires BookOk(m, strict)
    ensures OwnList(At(m, a, strict), a, strict)
    ensures forall tx: Tx :: Member(At(m, a, strict), tx) <==> Holds(m, tx) && tx.from == a
  {
  }

  /**
   Rearranging and dropping transactions of one account keeps the partition, provided the
   hashes taken out of the lookup are exactly those of the dropped transactions.
   */
  lemma AccountStep(p: Book, q: Book, all: map<Hash, Tx>, a: Address, pl: List, ql: List, gone: set<Hash>)
    requires Partition(p, q, all)
    requires OwnList(pl, a, true) && OwnList(ql, a, false) && pl.txs.Keys !! ql.txs.Keys
    requires forall tx: Tx :: Member(pl, tx) || Member(ql, tx) ==> Holds(p, tx) || Holds(q, tx)
    requires forall tx: Tx :: tx.from == a && (Holds(p, tx) || Holds(q, tx)) ==>
                            ((Member(pl, tx) || Member(ql, tx)) <==> tx.hash !in gone)
    requires forall h :: h in gone ==> h in all && all[h].from == a
    ensures Partition(Store(p, a, pl), Store(q, a, ql), all - gone)
  {
    StoreOk(p, a, pl, true);
    StoreOk(q, a, ql, false);
    var p', q', all' := Store(p, a, pl), Store(q, a, ql), all - gone;
    forall h | h in all' ensures all'[h].hash == h && (Holds(p', all'[h]) || Holds(q', all'[h])) {
      var tx := all[h];
      assert Holds(p, tx) || Holds(q, tx);
    }
    forall tx | Holds(p', tx) || Holds(q', tx) ensures tx.hash in all' && all'[tx.hash] == tx {
      assert Holds(p, tx) || Holds(q, tx);
    }
    forall b | b in p' && b in q' ensures p'[b].txs.Keys !! q'[b].txs.Keys {
      if b != a {
        assert p[b].txs.Keys !! q[b].txs.Keys;
      }
    }
  }
}
