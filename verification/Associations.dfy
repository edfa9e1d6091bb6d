/** models/capi_diego_process_association.go: the Diego processes of each CAPI process. */
module Associations {
  import opened Models
  import opened Sequences

  type Repo = map<CAPIProcessGUID, seq<DiegoProcessGUID>>

  datatype Association = Association(capiProcessGUID: CAPIProcessGUID, diegoProcessGUIDs: seq<DiegoProcessGUID>)

  function Upserted(repo: Repo, a: Association): Repo
  {
    repo[a.capiProcessGUID := a.diegoProcessGUIDs]
  }

  function UpsertedAll(repo: Repo, list: seq<Association>): Repo
  {
    if list == [] then repo else Upserted(UpsertedAll(repo, list[..|list| - 1]), list[|list| - 1])
  }

  class AssociationsRepo {
    var repo: Repo

    constructor ()
      ensures repo == map[]
    {
      repo := map[];
    }

    method Upsert(a: Association)
      modifies this
      ensures repo == Upserted(old(repo), a)
    {
      repo := repo[a.capiProcessGUID := a.diegoProcessGUIDs];
    }

    method Delete(guid: CAPIProcessGUID)
      modifies this
      ensures repo == old(repo) - {guid}
    {
      repo := repo - {guid};
    }

    /** Replaces everything; the result is that of upserting the list into an empty repository. */
    method Sync(list: seq<Association>)
      modifies this
      ensures repo == UpsertedAll(map[], list)
    {
      var newRepo: Repo := map[];
      for i := 0 to |list|
        invariant newRepo == UpsertedAll(map[], list[..i])
      {
        newRepo := newRepo[list[i].capiProcessGUID := list[i].diegoProcessGUIDs];
        assert list[..i + 1][..i] == list[..i];
      }
      assert list[..|list|] == list;
      repo := newRepo;
    }

    function Get(guid: CAPIProcessGUID): Option<seq<DiegoProcessGUID>>
      reads this
    {
      if guid in repo then Some(repo[guid]) else None
    }
  }

  // ----- histories

  datatype Op = UpsertOp(a: Association) | DeleteOp(guid: CAPIProcessGUID) | SyncOp(list: seq<Association>)

  function Run(ops: seq<Op>): Repo
  {
    if ops == [] then map[]
    else
      var before := Run(ops[..|ops| - 1]);
      match ops[|ops| - 1]
      case UpsertOp(a) => Upserted(before, a)
      case DeleteOp(guid) => before - {guid}
      case SyncOp(list) => UpsertedAll(map[], list)
  }

  function IsFor(guid: CAPIProcessGUID): Association -> bool
  {
    (a: Association) => a.capiProcessGUID == guid
  }

  /** What a list says of a process: its last item for the process does. */
  function LastOf(list: seq<Association>, guid: CAPIProcessGUID): Option<seq<DiegoProcessGUID>>
  {
    var i := LastIndex(list, IsFor(guid));
    if i >= 0 then Some(list[i].diegoProcessGUIDs) else None
  }

  /** The operations that decide what is stored for a process. */
  function Decides(guid: CAPIProcessGUID): Op -> bool
  {
    (op: Op) => op.SyncOp? || (op.UpsertOp? && op.a.capiProcessGUID == guid) || (op.DeleteOp? && op.guid == guid)
  }

  /** What a run says of a process: the last operation that concerns it does. */
  function LastSaid(ops: seq<Op>, guid: CAPIProcessGUID): Option<seq<DiegoProcessGUID>>
  {
    var i := LastIndex(ops, Decides(guid));
    if i < 0 then None
    else
      match ops[i]
      case UpsertOp(a) => Some(a.diegoProcessGUIDs)
      case DeleteOp(_) => None
      case SyncOp(list) => LastOf(list, guid)
  }

  function Find(repo: Repo, guid: CAPIProcessGUID): Option<seq<DiegoProcessGUID>>
  {
    if guid in repo then Some(repo[guid]) else None
  }

  lemma {:induction false} SyncedFind(list: seq<Association>, guid: CAPIProcessGUID)
    ensures Find(UpsertedAll(map[], list), guid) == LastOf(list, guid)
  {
    if list != [] {
      var front, a := list[..|list| - 1], list[|list| - 1];
      SyncedFind(front, guid);
      assert list == front + [a];
      LastIndexSnoc(front, a, IsFor(guid));
    }
  }

  /** Over every run the Diego processes of a CAPI process are those of the last operation for it: none
      after a deletion, and after a Sync those of the last item for it, if any. */
  lemma {:induction false} FindInHistory(ops: seq<Op>, guid: CAPIProcessGUID)
    ensures Find(Run(ops), guid) == LastSaid(ops, guid)
  {
    if ops != [] {
      var front, op := ops[..|ops| - 1], ops[|ops| - 1];
      FindInHistory(front, guid);
      assert ops == front + [op];
      LastIndexSnoc(front, op, Decides(guid));
      if op.SyncOp? { SyncedFind(op.list, guid); }
    }
  }
}
