/** A document collection with a unique key and the one write primitive the
    handlers use: `update(query, {$set: fields}, {upsert: true,
    setDefaultsOnInsert: true})`. A stored document is a map from field names
    to values; a collection is a map from the query key to the one document
    that matches it. */
module Store {
  import opened JsValues

  /** The field names of the two collections. `Other` stands for any field
      only the schemas know about (a default, a timestamp). Its name is never
      one of the names listed here: a named field has exactly one
      representation, so distinct constructors are distinct fields. */
  datatype Field =
    | LogId          // log_id
    | ContractAddress // contract_address
    | TxHash         // tx_hash
    | Signature      // signature
    | Type           // type
    | BlockNumber    // block_number
    | Removed        // removed
    | FromAddress    // from_address
    | ToAddress      // to_address
    | AmountWei      // amount_wei
    | SharkAddress   // shark_address
    | SharkAmountWei // shark_amount_wei
    | Address        // address
    | PoolAddress    // pool_address
    | Deadline       // deadline
    | BlockCreated   // block_created
    | Other(name: string)

  /** One stored document: field name to value. */
  type Record = map<Field, Value>

  /** The document a `$set` is applied to: the one already stored under `k`,
      or, when none matches, the fresh document an upsert inserts (`seed`:
      the schema defaults with the query's equality fields on top). */
  function Base<K>(s: map<K, Record>, k: K, seed: Record): Record
  {
    if k in s then s[k] else seed
  }

  /** Upsert `fields` under `k`: the matched (or freshly seeded) document
      with `fields` written over it. */
  function Upsert<K>(s: map<K, Record>, k: K, seed: Record, fields: Record): (r: map<K, Record>)
    ensures r.Keys == s.Keys + {k}
    ensures r[k].Keys == Base(s, k, seed).Keys + fields.Keys
  {
    s[k := Base(s, k, seed) + fields]
  }

  /** `$set` semantics: the key is present afterwards, every field of
      `fields` is overwritten, every other field of the matched (or freshly
      seeded) document is kept, and every other document is left alone. */
  lemma UpsertSets<K>(s: map<K, Record>, k: K, seed: Record, fields: Record)
    ensures Upsert(s, k, seed, fields).Keys == s.Keys + {k}
    ensures forall j :: j in s && j != k ==> Upsert(s, k, seed, fields)[j] == s[j]
    ensures Upsert(s, k, seed, fields)[k].Keys == Base(s, k, seed).Keys + fields.Keys
    ensures forall f :: f in fields ==> Upsert(s, k, seed, fields)[k][f] == fields[f]
    ensures forall f :: f in Base(s, k, seed) && f !in fields ==>
              Upsert(s, k, seed, fields)[k][f] == Base(s, k, seed)[f]
  {
  }

  /** Applying the same `$set` twice leaves the collection as applying it once. */
  lemma UpsertIdempotent<K>(s: map<K, Record>, k: K, seed: Record, fields: Record)
    ensures Upsert(Upsert(s, k, seed, fields), k, seed, fields) == Upsert(s, k, seed, fields)
  {
    var once := Upsert(s, k, seed, fields);
    assert Base(once, k, seed) + fields == Base(s, k, seed) + fields;
  }

  /** A later `$set` that overwrites every field an earlier one wrote, under
      the same key, erases every trace of the earlier one. */
  lemma UpsertAbsorbs<K>(s: map<K, Record>, k: K, seed: Record, earlier: Record, later: Record)
    requires earlier.Keys <= later.Keys
    ensures Upsert(Upsert(s, k, seed, earlier), k, seed, later) == Upsert(s, k, seed, later)
  {
    var once := Upsert(s, k, seed, earlier);
    assert Base(once, k, seed) + later == Base(s, k, seed) + later;
  }

  /** Upserts under different keys are independent: either order gives the
      same collection. */
  lemma UpsertCommutes<K>(s: map<K, Record>, k1: K, seed1: Record, fields1: Record,
                          k2: K, seed2: Record, fields2: Record)
    requires k1 != k2
    ensures Upsert(Upsert(s, k1, seed1, fields1), k2, seed2, fields2)
         == Upsert(Upsert(s, k2, seed2, fields2), k1, seed1, fields1)
  {
  }

  /** The document a later upsert under `j` will work on, after an upsert under `k`. */
  lemma UpsertBase<K>(s: map<K, Record>, k: K, seed: Record, fields: Record, j: K, seedJ: Record)
    requires j == k ==> seedJ == seed
    ensures Base(Upsert(s, k, seed, fields), j, seedJ)
         == if j == k then Base(s, k, seed) + fields else Base(s, j, seedJ)
  {
  }

  /** An upsert extends, by its own `$set` or by nothing, the run of `$set`s
      that separates a key's document from where it started. */
  lemma UpsertExtendsRun<K>(start: map<K, Record>, before: map<K, Record>, k: K, seed: Record,
                            fields: Record, j: K, seedJ: Record, run: Record)
    requires j == k ==> seedJ == seed
    requires Base(before, j, seedJ) == Base(start, j, seedJ) + run
    ensures Base(Upsert(before, k, seed, fields), j, seedJ)
         == Base(start, j, seedJ) + (run + (if j == k then fields else map[]))
  {
    UpsertBase(before, k, seed, fields, j, seedJ);
    if j == k {
      MergeAssociative(Base(start, j, seedJ), run, fields);
    } else {
      assert run + map[] == run;
    }
  }

  /** Re-applying a `$set` that differs from the previous one only in field
      `f` changes exactly that field of the document. */
  lemma UpsertOverwriteOne<K>(s: map<K, Record>, k: K, seed: Record, fields: Record, f: Field, v: Value)
    requires f in fields
    ensures Upsert(Upsert(s, k, seed, fields), k, seed, fields[f := v])
         == Upsert(s, k, seed, fields)[k := Upsert(s, k, seed, fields)[k][f := v]]
  {
    var once := Upsert(s, k, seed, fields);
    assert Base(once, k, seed) + fields[f := v] == once[k][f := v];
  }

  /** Changing a field the right-hand document does not write commutes with the merge. */
  lemma MergeUpdateLeft(a: Record, b: Record, f: Field, v: Value)
    requires f !in b
    ensures a[f := v] + b == (a + b)[f := v]
  {
  }

  /** Applying the same run of `$set`s a second time changes nothing. */
  lemma MergeTwice(base: Record, run: Record)
    ensures (base + run) + run == base + run
  {
    MergeAssociative(base, run, run);
    assert run + run == run;
  }

  /** Merging documents is associative, so a run of `$set`s on one document
      can be regrouped freely. */
  lemma MergeAssociative(a: Record, b: Record, c: Record)
    ensures (a + b) + c == a + (b + c)
  {
  }
}
