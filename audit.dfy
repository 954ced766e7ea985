/** The dual-write contract over a whole sequence of requests. With a fresh
    row key per audit write (the controller draws a new Guid each time), the
    audit table only grows, it gains exactly one entry per fully successful
    mutation, with the matching action and in order, it never gains an entry
    without a committed primary change, and a failed audit write never undoes
    the primary change. */
module Audit {
  import opened Models
  import opened Actions

  /** One request to the controller, with the outcomes of its store calls. */
  datatype Request =
    | Get(id: int, findOk: bool)
    | Post(funcionario: Option<Funcionario>, newId: int, saveOk: bool, logOk: bool, rowKey: string)
    | Put(id: int, funcionario: Option<Funcionario>, saveOk: bool, logOk: bool, rowKey: string)
    | Delete(id: int, saveOk: bool, logOk: bool, rowKey: string)

  /** No entry of the log is stored under row key rk. */
  predicate RowKeyFresh(log: seq<FuncionarioLog>, rk: string) {
    forall i :: 0 <= i < |log| ==> log[i].rowKey != rk
  }

  /** The database hands out only positive ids not already in use, and each
      audit write carries a row key (a new Guid) not already in the table. */
  predicate Admissible(db: Db, req: Request) {
    && (req.Post? ==> req.newId > 0 && req.newId !in db.funcionarios)
    && (!req.Get? ==> RowKeyFresh(db.log, req.rowKey))
  }

  /** The action an entry written for answer r records. */
  function KindOf(r: Response): TipoAcao
    requires Logged(r)
  {
    if r.Created? then Inclusao else if r.NoContent? then Remocao else Atualizacao
  }

  /** An entry as the controller writes them: partitioned by the department
      of its snapshot, and about a record with a database-assigned id. */
  predicate WellFormedEntry(e: FuncionarioLog) {
    e.partitionKey == e.funcionario.departamento && e.funcionario.id > 0
  }

  /** One request, dispatched to its action. */
  function Step(db: Db, req: Request): (res: (Db, Response))
    requires db.Valid() && Admissible(db, req)
    ensures res.0.Valid()
    ensures !Committed(res.1) ==> res.0 == db
    ensures !Logged(res.1) ==> res.0.log == db.log
    ensures Logged(res.1) ==>
      && |res.0.log| == |db.log| + 1
      && res.0.log[..|db.log|] == db.log
      && res.0.log[|db.log|].tipoAcao == KindOf(res.1)
      && WellFormedEntry(res.0.log[|db.log|])
  {
    match req
    case Get(id, findOk) => (db, ObterPorId(db, id, findOk))
    case Post(f, newId, saveOk, logOk, rowKey) => Criar(db, f, newId, saveOk, logOk, rowKey)
    case Put(id, f, saveOk, logOk, rowKey) => Atualizar(db, id, f, saveOk, logOk, rowKey)
    case Delete(id, saveOk, logOk, rowKey) => Deletar(db, id, saveOk, logOk, rowKey)
  }

  /** Every Post in the sequence gets a fresh id at the point it is served. */
  predicate AdmissibleTrace(db: Db, reqs: seq<Request>)
    requires db.Valid()
    decreases |reqs|
  {
    reqs == [] || (Admissible(db, reqs[0]) && AdmissibleTrace(Step(db, reqs[0]).0, reqs[1..]))
  }

  /** The requests served one after another: the final stores and the answers. */
  function Run(db: Db, reqs: seq<Request>): (res: (Db, seq<Response>))
    requires db.Valid() && AdmissibleTrace(db, reqs)
    ensures res.0.Valid()
    ensures |res.1| == |reqs|
    decreases |reqs|
  {
    if reqs == [] then (db, [])
    else
      var first := Step(db, reqs[0]);
      var rest := Run(first.0, reqs[1..]);
      (rest.0, [first.1] + rest.1)
  }

  /** The actions the answers say were logged, in order. */
  function LoggedKinds(rs: seq<Response>): seq<TipoAcao> {
    if rs == [] then []
    else (if Logged(rs[0]) then [KindOf(rs[0])] else []) + LoggedKinds(rs[1..])
  }

  /** The number of answers after which a primary change was committed. */
  function CountCommitted(rs: seq<Response>): nat {
    if rs == [] then 0 else (if Committed(rs[0]) then 1 else 0) + CountCommitted(rs[1..])
  }

  /** The actions recorded by a stretch of the log. */
  function Kinds(log: seq<FuncionarioLog>): seq<TipoAcao> {
    seq(|log|, i requires 0 <= i < |log| => log[i].tipoAcao)
  }

  /** The audit log is append-only: what was there stays, in place. */
  lemma {:induction false} LogIsAppendOnly(db: Db, reqs: seq<Request>)
    requires db.Valid() && AdmissibleTrace(db, reqs)
    ensures |db.log| <= |Run(db, reqs).0.log|
    ensures Run(db, reqs).0.log[..|db.log|] == db.log
    decreases |reqs|
  {
    if reqs != [] {
      var mid := Step(db, reqs[0]).0;
      LogIsAppendOnly(mid, reqs[1..]);
      var final := Run(db, reqs).0;
      assert final == Run(mid, reqs[1..]).0;
      assert final.log[..|mid.log|][..|db.log|] == final.log[..|db.log|];
    }
  }

  /** Kinds of a stretch of the log split at b. */
  lemma KindsSplit(log: seq<FuncionarioLog>, a: nat, b: nat)
    requires a <= b <= |log|
    ensures Kinds(log[a..]) == Kinds(log[a..b]) + Kinds(log[b..])
  {
    assert log[a..] == log[a..b] + log[b..];
  }

  /** What one request appends records the action of its answer, if logged. */
  lemma StepAppendedKinds(db: Db, req: Request)
    requires db.Valid() && Admissible(db, req)
    ensures |db.log| <= |Step(db, req).0.log|
    ensures Kinds(Step(db, req).0.log[|db.log|..]) == LoggedKinds([Step(db, req).1])
  {
  }

  /** LoggedKinds distributes over a leading answer. */
  lemma LoggedKindsCons(r: Response, rs: seq<Response>)
    ensures LoggedKinds([r] + rs) == LoggedKinds([r]) + LoggedKinds(rs)
  {
  }

  /** The entries a sequence of requests appends record, in order, exactly
      the actions of the answers that report a fully successful mutation:
      one entry per 201, per empty 200 of Atualizar and per 204, and none for
      any other answer. */
  lemma {:induction false} AppendedKindsFollowResponses(db: Db, reqs: seq<Request>)
    requires db.Valid() && AdmissibleTrace(db, reqs)
    ensures |db.log| <= |Run(db, reqs).0.log|
    ensures Kinds(Run(db, reqs).0.log[|db.log|..]) == LoggedKinds(Run(db, reqs).1)
    decreases |reqs|
  {
    if reqs != [] {
      var first := Step(db, reqs[0]);
      var mid := first.0;
      var rest := Run(mid, reqs[1..]);
      assert Run(db, reqs) == (rest.0, [first.1] + rest.1);
      AppendedKindsFollowResponses(mid, reqs[1..]);
      StepAppendedKinds(db, reqs[0]);
      LogIsAppendOnly(mid, reqs[1..]);
      var log := rest.0.log;
      assert log[|db.log|..|mid.log|] == mid.log[|db.log|..];
      KindsSplit(log, |db.log|, |mid.log|);
      LoggedKindsCons(first.1, rest.1);
    }
  }

  /** Every entry a sequence of requests appends is partitioned by its
      snapshot's department and refers to a database-assigned id. */
  lemma {:induction false} AppendedEntriesWellFormed(db: Db, reqs: seq<Request>)
    requires db.Valid() && AdmissibleTrace(db, reqs)
    ensures forall i :: |db.log| <= i < |Run(db, reqs).0.log| ==> WellFormedEntry(Run(db, reqs).0.log[i])
    decreases |reqs|
  {
    if reqs != [] {
      var mid := Step(db, reqs[0]).0;
      AppendedEntriesWellFormed(mid, reqs[1..]);
      LogIsAppendOnly(mid, reqs[1..]);
      var final := Run(db, reqs).0;
      assert final == Run(mid, reqs[1..]).0;
      forall i | |db.log| <= i < |final.log|
        ensures WellFormedEntry(final.log[i])
      {
        if i < |mid.log| {
          assert final.log[i] == final.log[..|mid.log|][i];
        }
      }
    }
  }

  /** Logged answers never outnumber committed ones, and match them one for
      one when no audit write failed. */
  lemma {:induction false} LoggedAtMostCommitted(rs: seq<Response>)
    ensures |LoggedKinds(rs)| <= CountCommitted(rs)
    ensures (forall i :: 0 <= i < |rs| ==> rs[i] != ServerError(LogFailed)) ==> |LoggedKinds(rs)| == CountCommitted(rs)
  {
    if rs != [] {
      LoggedAtMostCommitted(rs[1..]);
      if forall i :: 0 <= i < |rs| ==> rs[i] != ServerError(LogFailed) {
        assert forall i :: 0 <= i < |rs[1..]| ==> rs[1..][i] == rs[i + 1];
      }
    }
  }

  /** No entry without a committed primary change: over any sequence of
      requests the entries the audit table gains never outnumber the
      requests whose primary change was committed, and they match them one
      for one unless some audit write failed. */
  lemma NoEntryWithoutCommit(db: Db, reqs: seq<Request>)
    requires db.Valid() && AdmissibleTrace(db, reqs)
    ensures |db.log| <= |Run(db, reqs).0.log|
    ensures |Run(db, reqs).0.log| - |db.log| <= CountCommitted(Run(db, reqs).1)
    ensures (forall i :: 0 <= i < |reqs| ==> Run(db, reqs).1[i] != ServerError(LogFailed)) ==>
      |Run(db, reqs).0.log| - |db.log| == CountCommitted(Run(db, reqs).1)
  {
    AppendedKindsFollowResponses(db, reqs);
    var res := Run(db, reqs);
    assert |Kinds(res.0.log[|db.log|..])| == |res.0.log| - |db.log|;
    LoggedAtMostCommitted(res.1);
  }

  /** Requests none of which commits a primary change leave both stores
      exactly as they were. */
  lemma {:induction false} UncommittedRequestsChangeNothing(db: Db, reqs: seq<Request>)
    requires db.Valid() && AdmissibleTrace(db, reqs)
    requires forall i :: 0 <= i < |reqs| ==> !Committed(Run(db, reqs).1[i])
    ensures Run(db, reqs).0 == db
    decreases |reqs|
  {
    if reqs != [] {
      var first := Step(db, reqs[0]);
      assert Run(db, reqs).1[0] == first.1;
      var rest := Run(first.0, reqs[1..]);
      assert Run(db, reqs).1 == [first.1] + rest.1;
      forall i | 0 <= i < |reqs[1..]|
        ensures !Committed(rest.1[i])
      {
        assert rest.1[i] == Run(db, reqs).1[i + 1];
      }
      UncommittedRequestsChangeNothing(first.0, reqs[1..]);
    }
  }

  /** A failed audit write does not roll back the primary change: with the
      same request and store outcomes, the employee table ends up the same
      whether the audit write fails or succeeds, the log is untouched, and
      the answer is a 500 exactly when the mutation would otherwise have
      been reported a success. */
  lemma LogFailureKeepsPrimaryChange(db: Db, req: Request)
    requires db.Valid() && Admissible(db, req) && !req.Get?
    ensures Step(db, req.(logOk := false)).0.funcionarios == Step(db, req.(logOk := true)).0.funcionarios
    ensures Step(db, req.(logOk := false)).0.log == db.log
    ensures Step(db, req.(logOk := false)).1 == ServerError(LogFailed) <==> Logged(Step(db, req.(logOk := true)).1)
  {
  }

  /** After a committed insert the new record is served by GET under its id,
      carrying the fields that were posted; a 201 references exactly it. */
  lemma CreatedIsObtainable(db: Db, f: Option<Funcionario>, newId: int, saveOk: bool, logOk: bool, rowKey: string)
    requires db.Valid() && newId > 0 && newId !in db.funcionarios
    ensures var res := Criar(db, f, newId, saveOk, logOk, rowKey);
      Committed(res.1) ==>
        && f.Some?
        && ObterPorId(res.0, newId, true) == Ok(Some(res.0.funcionarios[newId]))
        && SameFields(res.0.funcionarios[newId], f.value)
    ensures var res := Criar(db, f, newId, saveOk, logOk, rowKey);
      res.1.Created? ==> ObterPorId(res.0, res.1.id, true) == Ok(Some(res.1.record))
  {
  }

  /** After a committed update GET returns the record with the id it had and
      the six fields that were sent. */
  lemma UpdatedIsObtainable(db: Db, id: int, f: Option<Funcionario>, saveOk: bool, logOk: bool, rowKey: string)
    requires db.Valid()
    ensures var res := Atualizar(db, id, f, saveOk, logOk, rowKey);
      Committed(res.1) ==>
        && f.Some?
        && ObterPorId(res.0, id, true).Ok?
        && ObterPorId(res.0, id, true).body.value.id == id
        && SameFields(ObterPorId(res.0, id, true).body.value, f.value)
  {
  }

  /** After a committed delete GET answers 404, and the Remocao entry (if it
      was written) is in the audit table carrying what GET returned before
      the delete. */
  lemma DeletedIsNotFound(db: Db, id: int, saveOk: bool, logOk: bool, rowKey: string)
    requires db.Valid()
    ensures var res := Deletar(db, id, saveOk, logOk, rowKey);
      Committed(res.1) ==> ObterPorId(res.0, id, true) == NotFound
    ensures var res := Deletar(db, id, saveOk, logOk, rowKey);
      Logged(res.1) ==>
        && ObterPorId(db, id, true).Ok?
        && LogEntry(ObterPorId(db, id, true).body.value, Remocao, rowKey) in res.0.log
  {
  }
}
