/** The compare-and-swap substrate: a keyed store whose cells carry a version
    counter. Conditional replacement succeeds only against the live version. */
module Backend {
  import opened Wrappers

  datatype Cell<+B> = Cell(body: B, version: nat)

  datatype PutError = AlreadyExists | PreconditionFailed

  /** Conditional replacement; `expected` None means the key must not exist. */
  function Put<K, B>(cells: map<K, Cell<B>>, key: K, expected: Option<nat>, body: B)
    : (r: Result<map<K, Cell<B>>, PutError>)
    ensures r.Ok? <==> expected == LiveVersion(cells, key)
    ensures r == Err(AlreadyExists) <==> expected.None? && key in cells
    ensures r == Err(PreconditionFailed) <==> expected.Some? && !(key in cells && cells[key].version == expected.value)
    ensures r.Ok? ==> r.value.Keys == cells.Keys + {key}
    ensures r.Ok? ==> forall k :: k in cells && k != key ==> r.value[k] == cells[k]
    ensures r.Ok? ==> r.value[key].body == body
    ensures r.Ok? ==> r.value[key].version == (if key in cells then cells[key].version + 1 else 1)
  {
    if key !in cells then
      if expected.None? then Ok(cells[key := Cell(body, 1)]) else Err(PreconditionFailed)
    else
      match expected
      case None => Err(AlreadyExists)
      case Some(v) =>
        if v != cells[key].version then Err(PreconditionFailed)
        else Ok(cells[key := Cell(body, v + 1)])
  }

  function LiveVersion<K, B>(cells: map<K, Cell<B>>, key: K): Option<nat> {
    if key in cells then Some(cells[key].version) else None
  }

  /** The in-memory backend. */
  class MemoryBackend<K(==), B> {
    var cells: map<K, Cell<B>>

    constructor ()
      ensures cells == map[]
    {
      cells := map[];
    }

    method PutCreate(key: K, body: B) returns (r: Result<nat, PutError>)
      modifies this
      ensures r.Ok? <==> key !in old(cells)
      ensures r.Ok? ==> r.value == 1 && cells == old(cells)[key := Cell(body, 1)]
      ensures r.Err? ==> r.error == AlreadyExists && cells == old(cells)
    {
      if key in cells {
        return Err(AlreadyExists);
      }
      cells := cells[key := Cell(body, 1)];
      return Ok(1);
    }

    method PutUpdate(key: K, expected: Option<nat>, body: B) returns (r: Result<nat, PutError>)
      modifies this
      ensures r.Ok? <==> Put(old(cells), key, expected, body).Ok?
      ensures r == Err(AlreadyExists) <==> expected.None? && key in old(cells)
      ensures r == Err(PreconditionFailed)
              <==> expected.Some? && !(key in old(cells) && old(cells)[key].version == expected.value)
      ensures r.Ok? ==> Put(old(cells), key, expected, body) == Ok(cells) && LiveVersion(cells, key) == Some(r.value)
      ensures r.Err? ==> Put(old(cells), key, expected, body) == Err(r.error) && cells == old(cells)
    {
      if key !in cells {
        if expected.Some? {
          return Err(PreconditionFailed);
        }
        cells := cells[key := Cell(body, 1)];
        return Ok(1);
      }
      if expected.None? {
        return Err(AlreadyExists);
      }
      var live := cells[key].version;
      if expected.value != live {
        return Err(PreconditionFailed);
      }
      cells := cells[key := Cell(body, live + 1)];
      return Ok(live + 1);
    }

    method Get(key: K) returns (r: Option<(B, nat)>)
      ensures r.Some? <==> key in cells
      ensures r.Some? ==> r.value == (cells[key].body, cells[key].version)
    {
      if key in cells {
        return Some((cells[key].body, cells[key].version));
      }
      return None;
    }
  }

  // ---- runs of conditional puts ---------------------------------------------

  datatype Op<+K, +B> = Op(key: K, expected: Option<nat>, body: B)

  function Apply<K, B>(cells: map<K, Cell<B>>, ops: seq<Op<K, B>>): map<K, Cell<B>>
    decreases |ops|
  {
    if ops == [] then cells
    else
      var r := Put(cells, ops[0].key, ops[0].expected, ops[0].body);
      Apply(if r.Ok? then r.value else cells, ops[1..])
  }

  /** No ABA: over any run of conditional puts by anyone, versions never fall,
      and a key whose version is unchanged still holds the body it held. */
  lemma {:induction false} EqualVersionMeansUntouched<K, B>(cells: map<K, Cell<B>>, ops: seq<Op<K, B>>, key: K)
    requires key in cells
    ensures key in Apply(cells, ops)
    ensures Apply(cells, ops)[key].version >= cells[key].version
    ensures Apply(cells, ops)[key].version == cells[key].version ==> Apply(cells, ops)[key] == cells[key]
    decreases |ops|
  {
    if ops != [] {
      var r := Put(cells, ops[0].key, ops[0].expected, ops[0].body);
      EqualVersionMeansUntouched(if r.Ok? then r.value else cells, ops[1..], key);
    }
  }

  /** A swap whose version was read before a run succeeds after it exactly when
      the run left the cell alone. */
  lemma CasSucceedsIffUntouched<K, B>(cells: map<K, Cell<B>>, ops: seq<Op<K, B>>, key: K, body: B)
    requires key in cells
    ensures key in Apply(cells, ops)
    ensures Put(Apply(cells, ops), key, Some(cells[key].version), body).Ok?
            <==> Apply(cells, ops)[key] == cells[key]
  {
    EqualVersionMeansUntouched(cells, ops, key);
  }
}
