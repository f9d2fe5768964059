/** What a ref holds, over any kind of commit digest and stable key. */
module Heads {
  import opened Wrappers
  import opened Backend

  datatype IdentityOf<+K> = Generic(op: nat) | Stable(key: K)

  datatype Lease = Lease(writer: string, leaseUntil: int)

  datatype RefState<+D> = RefValue(
    name: string,
    generation: nat,
    epoch: nat,
    target: Option<D>,
    lease: Option<Lease>,
    updatedAt: int,
    headCommit: Option<D>)

  datatype SnapshotOf<+D> = Snapshot(value: RefState<D>, version: Option<nat>)

  function EmptyRef<D>(name: string): RefState<D> {
    RefValue(name, 0, 0, None, None, 0, None)
  }

  /** read_head, with an absent ref read as generation 0. */
  function HeadIn<D>(refs: map<string, Cell<RefState<D>>>, name: string): SnapshotOf<D> {
    if name in refs then Snapshot(refs[name].body, Some(refs[name].version)) else Snapshot(EmptyRef(name), None)
  }
}
