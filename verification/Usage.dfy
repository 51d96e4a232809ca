/** Requests and refusals per credential (`record` and `take_usage` in `backend/src/rate_limit.rs`). */
module Usage {

  datatype Caller = ApiKey(id: string) | ServiceAccount(id: string) | User(id: string) | Ip(address: int)

  predicate IsCredential(c: Caller) {
    c.ApiKey? || c.ServiceAccount?
  }

  datatype Counts = Counts(requests: int, refused: int)

  function Zero(): Counts {
    Counts(0, 0)
  }

  function Plus(a: Counts, b: Counts): Counts {
    Counts(a.requests + b.requests, a.refused + b.refused)
  }

  function One(refused: bool): Counts {
    Counts(1, if refused then 1 else 0)
  }

  function Of(usage: map<Caller, Counts>, c: Caller): Counts {
    if c in usage then usage[c] else Zero()
  }

  /** A flushed row: `api_key` or `service_account`, the credential's id, and its counts. */
  datatype CredentialUsage = CredentialUsage(kind: string, credentialId: string, usage: Counts)

  function Row(c: Caller, counts: Counts): CredentialUsage
    requires IsCredential(c)
  {
    CredentialUsage(if c.ApiKey? then "api_key" else "service_account", c.id, counts)
  }

  /** Which credential a row is about. */
  ghost predicate About(row: CredentialUsage, c: Caller) {
    && (c.ApiKey? || c.ServiceAccount?) && row.credentialId == c.id
    && (row.kind == "api_key" <==> c.ApiKey?) && (row.kind == "service_account" <==> c.ServiceAccount?)
  }

  lemma RowIsAbout(c: Caller, counts: Counts)
    requires IsCredential(c)
    ensures About(Row(c, counts), c) && Row(c, counts).usage == counts
  {
    assert "api_key"[0] != "service_account"[0];
  }

  ghost predicate OnlyCredentials(usage: map<Caller, Counts>) {
    forall c :: c in usage ==> IsCredential(c)
  }

  /** What the rows hold for credential `c`. */
  function Flushed(rows: seq<CredentialUsage>, c: Caller): Counts
    requires IsCredential(c)
  {
    if rows == [] then Zero()
    else
      var row := rows[|rows| - 1];
      Plus(Flushed(rows[..|rows| - 1], c), if row == Row(c, row.usage) then row.usage else Zero())
  }

  lemma FlushedLast(rows: seq<CredentialUsage>, row: CredentialUsage, c: Caller)
    requires IsCredential(c)
    ensures Flushed(rows + [row], c) == Plus(Flushed(rows, c), if row == Row(c, row.usage) then row.usage else Zero())
  {
    assert (rows + [row])[..|rows|] == rows;
  }

  /** Rows tell credentials apart. */
  lemma RowCounts(rows: seq<CredentialUsage>, c: Caller, counts: Counts, x: Caller)
    requires IsCredential(c) && IsCredential(x)
    ensures Flushed(rows + [Row(c, counts)], x) == Plus(Flushed(rows, x), if x == c then counts else Zero())
  {
    assert "api_key"[0] != "service_account"[0];
    FlushedLast(rows, Row(c, counts), x);
  }

  lemma NothingFlushed()
    ensures forall c :: IsCredential(c) ==> Flushed([], c) == Zero()
  {
  }

  lemma NotHeld(usage: map<Caller, Counts>)
    ensures forall c :: c !in usage ==> Of(usage, c) == Zero()
    ensures forall c :: c in usage ==> Of(usage, c) == usage[c]
  {
  }

  class Meter {
    var usage: map<Caller, Counts>

    constructor ()
      ensures usage == map[]
    {
      usage := map[];
    }

    method Record(c: Caller, refused: bool)
      modifies this
      ensures usage == Recorded(old(usage), c, refused)
      ensures c.User? || c.Ip? ==> usage == old(usage)
      ensures c.ApiKey? || c.ServiceAccount? ==>
        var before := Of(old(usage), c);
        usage == old(usage)[c := Counts(before.requests + 1, if refused then before.refused + 1 else before.refused)]
    {
      if !IsCredential(c) {
        return;
      }
      var counts := Of(usage, c);
      counts := Counts(counts.requests + 1, counts.refused + if refused then 1 else 0);
      usage := usage[c := counts];
    }

    /** Empties the map, in any order, into one row a credential. */
    method TakeUsage() returns (rows: seq<CredentialUsage>)
      requires OnlyCredentials(usage)
      modifies this
      ensures usage == map[]
      ensures forall c :: IsCredential(c) ==> Flushed(rows, c) == Of(old(usage), c)
      ensures |rows| == |old(usage)|
      ensures forall row :: row in rows ==> exists c :: c in old(usage) && About(row, c) && row.usage == old(usage)[c]
    {
      hide Flushed, Of, Row, IsCredential, About;
      var drained := usage;
      usage := map[];
      rows := [];
      NothingFlushed();
      NotHeld(drained);
      var rest := drained.Keys;
      while rest != {}
        invariant usage == map[] && rest <= drained.Keys
        invariant forall c :: IsCredential(c) ==> Flushed(rows, c) == if c in rest then Zero() else Of(drained, c)
        invariant |rows| + |rest| == |drained.Keys|
        invariant forall row :: row in rows ==> exists c :: c in drained && About(row, c) && row.usage == drained[c]
      {
        var c :| c in rest;
        var row := Row(c, drained[c]);
        RowIsAbout(c, drained[c]);
        forall x | IsCredential(x)
          ensures Flushed(rows + [row], x) == if x in rest - {c} then Zero() else Of(drained, x)
        {
          assert Flushed(rows, x) == if x in rest then Zero() else Of(drained, x);
          RowCounts(rows, c, drained[c], x);
          if x == c {
            assert Of(drained, x) == drained[c];
          }
        }
        rest := rest - {c};
        rows := rows + [row];
      }
    }
  }

  function Recorded(usage: map<Caller, Counts>, c: Caller, refused: bool): map<Caller, Counts> {
    if IsCredential(c) then usage[c := Plus(Of(usage, c), One(refused))] else usage
  }

  // ---- Conservation ----------------------------------------------------------------------------

  /** A request recorded, or a flush with the rows it happened to produce. */
  datatype Op = Request(caller: Caller, refused: bool) | Flush(rows: seq<CredentialUsage>)

  ghost predicate FlushOf(usage: map<Caller, Counts>, rows: seq<CredentialUsage>) {
    forall c :: IsCredential(c) ==> Flushed(rows, c) == Of(usage, c)
  }

  function Held(ops: seq<Op>): map<Caller, Counts> {
    if ops == [] then map[]
    else
      match ops[|ops| - 1]
      case Request(c, refused) => Recorded(Held(ops[..|ops| - 1]), c, refused)
      case Flush(_) => map[]
  }

  ghost predicate Run(ops: seq<Op>) {
    forall i :: 0 <= i < |ops| && ops[i].Flush? ==> FlushOf(Held(ops[..i]), ops[i].rows)
  }

  function Made(ops: seq<Op>, c: Caller): Counts {
    if ops == [] then Zero()
    else
      var op := ops[|ops| - 1];
      Plus(Made(ops[..|ops| - 1], c), if op.Request? && op.caller == c then One(op.refused) else Zero())
  }

  function Taken(ops: seq<Op>, c: Caller): Counts
    requires IsCredential(c)
  {
    if ops == [] then Zero()
    else
      var op := ops[|ops| - 1];
      Plus(Taken(ops[..|ops| - 1], c), if op.Flush? then Flushed(op.rows, c) else Zero())
  }

  /** The requests of `c`, and those of them that were refused. */
  ghost function Requests(ops: seq<Op>, c: Caller): set<nat> {
    set i | 0 <= i < |ops| && ops[i].Request? && ops[i].caller == c
  }

  ghost function Refusals(ops: seq<Op>, c: Caller): set<nat> {
    set i | 0 <= i < |ops| && ops[i].Request? && ops[i].caller == c && ops[i].refused
  }

  /** What was made is the number of a credential's requests, and of those refused. */
  lemma {:induction false} MadeCounts(ops: seq<Op>, c: Caller)
    ensures Made(ops, c) == Counts(|Requests(ops, c)|, |Refusals(ops, c)|)
  {
    if ops == [] {
      assert Requests([], c) == {} && Refusals([], c) == {};
    } else {
      var (front, op) := (ops[..|ops| - 1], ops[|ops| - 1]);
      assert ops == front + [op];
      MadeCounts(front, c);
      hide Requests, Refusals;
      RequestsLast(front, op, c);
      RefusalsLast(front, op, c);
    }
  }

  lemma RequestsLast(front: seq<Op>, op: Op, c: Caller)
    ensures |Requests(front + [op], c)| == |Requests(front, c)| + if op.Request? && op.caller == c then 1 else 0
  {
    assert Requests(front + [op], c) == Requests(front, c) + if op.Request? && op.caller == c then {|front|} else {};
  }

  lemma RefusalsLast(front: seq<Op>, op: Op, c: Caller)
    ensures |Refusals(front + [op], c)|
            == |Refusals(front, c)| + if op.Request? && op.caller == c && op.refused then 1 else 0
  {
    assert Refusals(front + [op], c)
        == Refusals(front, c) + if op.Request? && op.caller == c && op.refused then {|front|} else {};
  }

  /** Over any run, what the flushes took and what is still held add up to exactly what was requested and
      refused, credential by credential. */
  lemma {:induction false} NothingLostOrCountedTwice(ops: seq<Op>, c: Caller)
    requires Run(ops) && IsCredential(c)
    ensures Plus(Taken(ops, c), Of(Held(ops), c)) == Made(ops, c)
  {
    hide *;
    if ops == [] {
      NothingYet(c);
    } else {
      var front, op := ops[..|ops| - 1], ops[|ops| - 1];
      RunOfFront(ops);
      NothingLostOrCountedTwice(front, c);
      LastOp(ops, c);
      var (taken, held) := (Taken(front, c), Of(Held(front), c));
      PlusLaws(taken, held, if op.Request? && op.caller == c then One(op.refused) else Zero());
    }
  }

  lemma NothingYet(c: Caller)
    requires IsCredential(c)
    ensures Plus(Taken([], c), Of(Held([]), c)) == Made([], c)
  {
  }

  lemma PlusLaws(a: Counts, b: Counts, c: Counts)
    ensures Plus(Plus(a, b), c) == Plus(a, Plus(b, c))
    ensures Plus(a, Zero()) == a && Plus(Plus(a, b), Zero()) == Plus(a, b)
  {
  }

  lemma LastOp(ops: seq<Op>, c: Caller)
    requires ops != [] && IsCredential(c)
    ensures
      var (front, op) := (ops[..|ops| - 1], ops[|ops| - 1]);
      var made := if op.Request? && op.caller == c then One(op.refused) else Zero();
      && Made(ops, c) == Plus(Made(front, c), made)
      && Taken(ops, c) == Plus(Taken(front, c), if op.Flush? then Flushed(op.rows, c) else Zero())
      && Of(Held(ops), c) == if op.Flush? then Zero() else Plus(Of(Held(front), c), made)
  {
    var op := ops[|ops| - 1];
    if op.Request? {
      OfRecorded(Held(ops[..|ops| - 1]), op.caller, op.refused, c);
    }
    hide Recorded, Flushed;
  }

  lemma RunOfFront(ops: seq<Op>)
    requires Run(ops) && ops != []
    ensures Run(ops[..|ops| - 1])
    ensures var op := ops[|ops| - 1];
      op.Flush? ==> forall c :: IsCredential(c) ==> Flushed(op.rows, c) == Of(Held(ops[..|ops| - 1]), c)
  {
    hide Held, Flushed, Of;
    var front := ops[..|ops| - 1];
    forall i | 0 <= i < |front| && front[i].Flush? ensures FlushOf(Held(front[..i]), front[i].rows) {
      assert front[..i] == ops[..i] && front[i] == ops[i];
    }
  }

  lemma OfRecorded(usage: map<Caller, Counts>, c: Caller, refused: bool, x: Caller)
    requires IsCredential(x)
    ensures Of(Recorded(usage, c, refused), x) == Plus(Of(usage, x), if x == c then One(refused) else Zero())
  {
  }

  lemma {:induction false} HeldAreCredentials(ops: seq<Op>)
    ensures OnlyCredentials(Held(ops))
  {
    if ops != [] {
      HeldAreCredentials(ops[..|ops| - 1]);
    }
  }
}
