/**
 * The transposition table: a direct-mapped cache of search results indexed
 * by `hash % size`, switched on and off by the `usingHashtable` flag.
 */
module HashTables {
  import opened Words

  /** search.go's `result`: how a searched line ends. */
  datatype GameResult = NoResult | Stalemate | Checkmate

  /** `hashTableEntry`. The best move is a packed move word. */
  datatype Entry = Entry(hash: nat, bestMove: Word, depth: int, score: int, result: GameResult)

  /** The zero value `hashTableEntry{}`. */
  const EmptyEntry: Entry := Entry(0, Zero(), 0, 0, NoResult)

  /** `HASHTABLEENTRYSIZE`: five eight-byte fields. */
  const EntrySize: int := 8 * 5

  /** Largest value of Go's 64-bit `int`. */
  const MaxInt: int := 0x7FFF_FFFF_FFFF_FFFF

  /** Hashes are `uint64`. */
  predicate IsHash(h: int) { 0 <= h < Pow2(64) }

  /**
   * The table together with the global `usingHashtable` flag that guards it.
   * The slot count `size` is the length of `table`, as `make` allocates it.
   */
  datatype HashTable = HashTable(enabled: bool, table: seq<Entry>)

  /** The state before any table is made: `usingHashtable` is false. */
  const NoTable: HashTable := HashTable(false, [])

  /** A table that can be indexed: disabled, or with at least one slot (`hash % 0` panics). */
  predicate Usable(ht: HashTable) { ht.enabled ==> |ht.table| > 0 }

  /** The slot a hash maps to. */
  function Slot(ht: HashTable, hash: nat): (k: nat)
    requires |ht.table| > 0
    ensures k < |ht.table|
  {
    hash % |ht.table|
  }

  /**
   * `NewHashTable(mb)`: as many zeroed entries as fit into mb megabytes, and
   * the table switched on.
   */
  function NewHashTable(mb: int): (ht: HashTable)
    requires 0 <= mb && mb * 1024 * 1024 <= MaxInt
    ensures ht.enabled
    ensures |ht.table| * EntrySize <= mb * 1024 * 1024 < (|ht.table| + 1) * EntrySize
    ensures forall k | 0 <= k < |ht.table| :: ht.table[k] == EmptyEntry
  {
    HashTable(true, seq(mb * 1024 * 1024 / EntrySize, k => EmptyEntry))
  }

  /**
   * `Store`: nothing when the table is off; otherwise a different hash in
   * the slot is overwritten and the same hash is updated only by a strictly
   * deeper result.
   */
  function Store(ht: HashTable, hash: nat, depth: int, bestMove: Word, score: int, result: GameResult): (r: HashTable)
    requires Usable(ht) && IsHash(hash)
    ensures Usable(r) && r.enabled == ht.enabled && |r.table| == |ht.table|
    ensures !ht.enabled ==> r == ht
    ensures ht.enabled ==>
              forall k | 0 <= k < |ht.table| && k != Slot(ht, hash) :: r.table[k] == ht.table[k]
  {
    if !ht.enabled then ht
    else
      var slot := Slot(ht, hash);
      var entry := ht.table[slot];
      if entry.hash != hash then
        ht.(table := ht.table[slot := Entry(hash, bestMove, depth, score, result)])
      else if entry.depth < depth then
        ht.(table := ht.table[slot := entry.(depth := depth, bestMove := bestMove, score := score, result := result)])
      else ht
  }

  /**
   * `Load`: the slot's entry and whether it is a hit; with the table off,
   * the zero entry and a miss.
   */
  function Load(ht: HashTable, hash: nat): (r: (Entry, bool))
    requires Usable(ht)
    ensures !ht.enabled ==> r == (EmptyEntry, false)
    ensures ht.enabled ==> r.0 == ht.table[Slot(ht, hash)]
    ensures r.1 <==> ht.enabled && hash != 0 && r.0.hash == hash
  {
    if !ht.enabled then (EmptyEntry, false)
    else
      var entry := ht.table[Slot(ht, hash)];
      (entry, entry.hash != 0 && entry.hash == hash)
  }

  /** A freshly made table misses every hash. */
  lemma FreshTableMisses(mb: int, hash: nat)
    requires 0 <= mb && mb * 1024 * 1024 <= MaxInt
    requires |NewHashTable(mb).table| > 0
    ensures !Load(NewHashTable(mb), hash).1
  {
  }

  /**
   * Storing a non-zero hash and loading it back is a hit. The entry holds
   * the stored data, unless the slot already held that hash at least as
   * deep, in which case it is left as it was.
   */
  lemma StoreThenLoad(ht: HashTable, hash: nat, depth: int, bestMove: Word, score: int, result: GameResult)
    requires Usable(ht) && IsHash(hash) && ht.enabled && hash != 0
    ensures var before := ht.table[Slot(ht, hash)];
            var loaded := Load(Store(ht, hash, depth, bestMove, score, result), hash);
            var entry := loaded.0;
            loaded.1
            && (if before.hash == hash && depth <= before.depth then entry == before
                else entry == Entry(hash, bestMove, depth, score, result))
  {
  }

  /** A stored depth never decreases while the same hash stays in its slot. */
  lemma StoreKeepsDeepest(ht: HashTable, hash: nat, depth: int, bestMove: Word, score: int, result: GameResult)
    requires Usable(ht) && IsHash(hash) && ht.enabled
    requires ht.table[Slot(ht, hash)].hash == hash
    ensures var r := Store(ht, hash, depth, bestMove, score, result);
            r.table[Slot(ht, hash)].hash == hash
            && r.table[Slot(ht, hash)].depth == if depth > ht.table[Slot(ht, hash)].depth then depth else ht.table[Slot(ht, hash)].depth
  {
  }

  /** A store leaves the answer for every hash in another slot as it was. */
  lemma StoreIsLocal(ht: HashTable, hash: nat, other: nat, depth: int, bestMove: Word, score: int, result: GameResult)
    requires Usable(ht) && IsHash(hash)
    requires ht.enabled ==> Slot(ht, other) != Slot(ht, hash)
    ensures Load(Store(ht, hash, depth, bestMove, score, result), other) == Load(ht, other)
  {
  }
}
