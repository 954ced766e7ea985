/** The four controller actions as transitions of the two stores: the
    relational store of employees (a map from id to record) and the audit
    table (a sequence of entries in the order they were first written, keyed
    by partition key and row key). Every call into a store
    that may throw is an oracle parameter: findOk for the lookup in
    ObterPorId, saveOk for SaveChanges, logOk for UpsertEntity; newId is the
    id the database assigns on insert and rowKey the generated Guid. */
module Actions {
  import opened Models

  /** Why a request is answered 400 Bad Request, one reason per check. */
  datatype Invalid = InvalidId | MissingFuncionario | MissingNome | MissingEmail | NonPositiveSalario

  /** Which store call threw when the answer is 500. */
  datatype Failure = ReadFailed | SaveFailed | LogFailed

  /** The HTTP answer of an action, by kind. Ok(None) is Atualizar's empty 200. */
  datatype Response =
    | Ok(body: Option<Funcionario>)
    | Created(id: int, record: Funcionario)
    | NoContent
    | BadRequest(reason: Invalid)
    | NotFound
    | ServerError(failure: Failure)

  /** The two stores. */
  datatype Db = Db(funcionarios: map<int, Funcionario>, log: seq<FuncionarioLog>) {
    /** Every stored record sits under its own, positive, id. */
    ghost predicate Valid() {
      forall id :: id in funcionarios ==> id > 0 && funcionarios[id].id == id
    }
  }

  // ---------------------------------------------------------------------
  // Validation

  /** Position of each check in the order the actions try them. */
  function Rank(e: Invalid): nat {
    match e
    case InvalidId => 0
    case MissingFuncionario => 1
    case MissingNome => 2
    case MissingEmail => 3
    case NonPositiveSalario => 4
  }

  /** Whether the request body fails the check named e, each check on its
      own (the route id is not part of the body, so InvalidId never applies). */
  predicate BodyViolates(f: Option<Funcionario>, e: Invalid) {
    match e
    case InvalidId => false
    case MissingFuncionario => f.None?
    case MissingNome => f.Some? && IsNullOrWhiteSpace(f.value.nome)
    case MissingEmail => f.Some? && IsNullOrWhiteSpace(f.value.emailProfissional)
    case NonPositiveSalario => f.Some? && f.value.salario <= 0.0
  }

  /** Whether a request with route id `id` and body `f` fails check e. */
  predicate Violates(id: int, f: Option<Funcionario>, e: Invalid) {
    if e == InvalidId then id <= 0 else BodyViolates(f, e)
  }

  /** The body checks of Criar and Atualizar, in their order: the answer is
      the first check that fails, or None when the body is acceptable. */
  function ValidateBody(f: Option<Funcionario>): (r: Option<Invalid>)
    ensures r.None? ==> forall e :: !BodyViolates(f, e)
    ensures r.Some? ==> BodyViolates(f, r.value)
    ensures r.Some? ==> forall e :: Rank(e) < Rank(r.value) ==> !BodyViolates(f, e)
  {
    if f.None? then Some(MissingFuncionario)
    else if IsNullOrWhiteSpace(f.value.nome) then Some(MissingNome)
    else if IsNullOrWhiteSpace(f.value.emailProfissional) then Some(MissingEmail)
    else if f.value.salario <= 0.0 then Some(NonPositiveSalario)
    else None
  }

  /** Atualizar's checks: the route id first, then the body checks. */
  function ValidateUpdate(id: int, f: Option<Funcionario>): (r: Option<Invalid>)
    ensures r.None? ==> forall e :: !Violates(id, f, e)
    ensures r.Some? ==> Violates(id, f, r.value)
    ensures r.Some? ==> forall e :: Rank(e) < Rank(r.value) ==> !Violates(id, f, e)
  {
    if id <= 0 then Some(InvalidId) else ValidateBody(f)
  }

  // ---------------------------------------------------------------------
  // Vocabulary for the effects of an action

  /** The six fields a client controls agree: everything but the id. */
  predicate SameFields(a: Funcionario, b: Funcionario) {
    && a.nome == b.nome
    && a.endereco == b.endereco
    && a.ramal == b.ramal
    && a.emailProfissional == b.emailProfissional
    && a.departamento == b.departamento
    && a.salario == b.salario
  }

  /** The audit entry for a snapshot: partitioned by the snapshot's department. */
  function LogEntry(snapshot: Funcionario, acao: TipoAcao, rowKey: string): FuncionarioLog {
    FuncionarioLog(snapshot, acao, snapshot.departamento, rowKey)
  }

  /** Whether two audit entries have the same (partition key, row key). */
  predicate SameKey(a: FuncionarioLog, b: FuncionarioLog) {
    a.partitionKey == b.partitionKey && a.rowKey == b.rowKey
  }

  /** Whether the log already holds an entry under e's key. */
  predicate KeyInUse(log: seq<FuncionarioLog>, e: FuncionarioLog) {
    exists i :: 0 <= i < |log| && SameKey(log[i], e)
  }

  /** UpsertEntity on the audit table: an entry under a new key is added;
      an entry under a key already present takes the place of the entry
      stored there. Every entry under another key stays as it was. */
  function Upsert(log: seq<FuncionarioLog>, e: FuncionarioLog): (r: seq<FuncionarioLog>)
    ensures !KeyInUse(log, e) ==> r == log + [e]
    ensures KeyInUse(log, e) ==> |r| == |log|
    ensures e in r
    ensures forall i :: 0 <= i < |r| && !SameKey(r[i], e) ==> i < |log| && r[i] == log[i]
    ensures forall i :: 0 <= i < |log| && !SameKey(log[i], e) ==> r[i] == log[i]
  {
    if log == [] then [e]
    else if SameKey(log[0], e) then [e] + log[1..]
    else [log[0]] + Upsert(log[1..], e)
  }

  /** m' is m with one new key id and every old entry kept. */
  predicate Inserted(m: map<int, Funcionario>, m': map<int, Funcionario>, id: int) {
    && id !in m
    && m'.Keys == m.Keys + {id}
    && forall k :: k in m ==> m'[k] == m[k]
  }

  /** m' is m with the entry at id (which exists) possibly replaced. */
  predicate Replaced(m: map<int, Funcionario>, m': map<int, Funcionario>, id: int) {
    && id in m
    && m'.Keys == m.Keys
    && forall k :: k in m && k != id ==> m'[k] == m[k]
  }

  /** m' is m without the entry at id (which existed). */
  predicate Removed(m: map<int, Funcionario>, m': map<int, Funcionario>, id: int) {
    && id in m
    && m'.Keys == m.Keys - {id}
    && forall k :: k in m' ==> m'[k] == m[k]
  }

  /** The answers of a mutation whose primary write and audit write both succeeded. */
  predicate Logged(r: Response) {
    r.Created? || r == Ok(None) || r.NoContent?
  }

  /** The answers after which the primary mutation is committed: success, or
      a 500 raised by the audit write alone. */
  predicate Committed(r: Response) {
    Logged(r) || r == ServerError(LogFailed)
  }

  // ---------------------------------------------------------------------
  // The actions

  /** GET /{id}: reads the store, changes nothing. */
  function ObterPorId(db: Db, id: int, findOk: bool): (r: Response)
    ensures r.BadRequest? <==> id <= 0
    ensures r.BadRequest? ==> r.reason == InvalidId
    ensures r.ServerError? <==> id > 0 && !findOk
    ensures r.ServerError? ==> r.failure == ReadFailed
    ensures r.NotFound? <==> id > 0 && findOk && id !in db.funcionarios
    ensures r.Ok? <==> id > 0 && findOk && id in db.funcionarios
    ensures r.Ok? ==> r.body == Some(db.funcionarios[id])
  {
    if id <= 0 then BadRequest(InvalidId)
    else if !findOk then ServerError(ReadFailed)
    else if id !in db.funcionarios then NotFound
    else Ok(Some(db.funcionarios[id]))
  }

  /** POST /: validate, insert under the id the database assigns, then log
      an Inclusao entry. */
  function Criar(db: Db, f: Option<Funcionario>, newId: int, saveOk: bool, logOk: bool, rowKey: string)
    : (res: (Db, Response))
    requires db.Valid() && newId > 0 && newId !in db.funcionarios
    ensures res.0.Valid()
    ensures res.1.BadRequest? || res.1.ServerError? || res.1.Created?
    // a rejected body changes neither store
    ensures res.1.BadRequest? <==> ValidateBody(f).Some?
    ensures res.1.BadRequest? ==> res.1.reason == ValidateBody(f).value && res.0 == db
    // a failed save changes neither store
    ensures res.1 == ServerError(SaveFailed) <==> ValidateBody(f).None? && !saveOk
    ensures res.1 == ServerError(SaveFailed) ==> res.0 == db
    // a committed insert adds the body's fields under the new id, and nothing else
    ensures Committed(res.1) <==> ValidateBody(f).None? && saveOk
    ensures Committed(res.1) ==>
      Inserted(db.funcionarios, res.0.funcionarios, newId) && SameFields(res.0.funcionarios[newId], f.value)
    // one Inclusao entry is written, and only when the answer is 201
    ensures Logged(res.1) <==> Committed(res.1) && logOk
    ensures Logged(res.1) ==>
      && res.1 == Created(newId, res.0.funcionarios[newId])
      && res.0.log == Upsert(db.log, LogEntry(res.1.record, Inclusao, rowKey))
    ensures !Logged(res.1) ==> res.0.log == db.log
  {
    match ValidateBody(f)
    case Some(reason) => (db, BadRequest(reason))
    case None =>
      if !saveOk then (db, ServerError(SaveFailed))
      else
        var stored := f.value.(id := newId);
        var saved := db.(funcionarios := db.funcionarios[newId := stored]);
        if !logOk then (saved, ServerError(LogFailed))
        else (saved.(log := Upsert(db.log, LogEntry(stored, Inclusao, rowKey))), Created(newId, stored))
  }

  /** PUT /{id}: validate, look up, copy the six fields onto the stored
      record, save, then log an Atualizacao entry. */
  function Atualizar(db: Db, id: int, f: Option<Funcionario>, saveOk: bool, logOk: bool, rowKey: string)
    : (res: (Db, Response))
    requires db.Valid()
    ensures res.0.Valid()
    ensures res.1.BadRequest? || res.1.NotFound? || res.1.ServerError? || res.1 == Ok(None)
    // every check runs before the lookup; a rejection changes nothing
    ensures res.1.BadRequest? <==> ValidateUpdate(id, f).Some?
    ensures res.1.BadRequest? ==> res.1.reason == ValidateUpdate(id, f).value && res.0 == db
    ensures res.1.NotFound? <==> ValidateUpdate(id, f).None? && id !in db.funcionarios
    ensures res.1.NotFound? ==> res.0 == db
    ensures res.1 == ServerError(SaveFailed) <==> ValidateUpdate(id, f).None? && id in db.funcionarios && !saveOk
    ensures res.1 == ServerError(SaveFailed) ==> res.0 == db
    // a committed update rewrites the six fields of that one record, keeping its id
    ensures Committed(res.1) <==> ValidateUpdate(id, f).None? && id in db.funcionarios && saveOk
    ensures Committed(res.1) ==>
      && Replaced(db.funcionarios, res.0.funcionarios, id)
      && res.0.funcionarios[id].id == id
      && SameFields(res.0.funcionarios[id], f.value)
    // one Atualizacao entry holding the updated record is written, only on 200
    ensures Logged(res.1) <==> Committed(res.1) && logOk
    ensures Logged(res.1) ==> res.0.log == Upsert(db.log, LogEntry(res.0.funcionarios[id], Atualizacao, rowKey))
    ensures !Logged(res.1) ==> res.0.log == db.log
  {
    match ValidateUpdate(id, f)
    case Some(reason) => (db, BadRequest(reason))
    case None =>
      if id !in db.funcionarios then (db, NotFound)
      else if !saveOk then (db, ServerError(SaveFailed))
      else
        var banco := db.funcionarios[id];
        var fields := f.value;
        var updated := banco.(nome := fields.nome, endereco := fields.endereco, ramal := fields.ramal,
                              emailProfissional := fields.emailProfissional,
                              departamento := fields.departamento, salario := fields.salario);
        var saved := db.(funcionarios := db.funcionarios[id := updated]);
        if !logOk then (saved, ServerError(LogFailed))
        else (saved.(log := Upsert(db.log, LogEntry(updated, Atualizacao, rowKey))), Ok(None))
  }

  /** DELETE /{id}: validate, look up, remove, then log a Remocao entry
      holding the values the record had before it was removed. */
  function Deletar(db: Db, id: int, saveOk: bool, logOk: bool, rowKey: string): (res: (Db, Response))
    requires db.Valid()
    ensures res.0.Valid()
    ensures res.1.BadRequest? || res.1.NotFound? || res.1.ServerError? || res.1.NoContent?
    ensures res.1.BadRequest? <==> id <= 0
    ensures res.1.BadRequest? ==> res.1.reason == InvalidId && res.0 == db
    ensures res.1.NotFound? <==> id > 0 && id !in db.funcionarios
    ensures res.1.NotFound? ==> res.0 == db
    ensures res.1 == ServerError(SaveFailed) <==> id > 0 && id in db.funcionarios && !saveOk
    ensures res.1 == ServerError(SaveFailed) ==> res.0 == db
    ensures Committed(res.1) <==> id > 0 && id in db.funcionarios && saveOk
    ensures Committed(res.1) ==> Removed(db.funcionarios, res.0.funcionarios, id)
    ensures Logged(res.1) <==> Committed(res.1) && logOk
    ensures Logged(res.1) ==> res.0.log == Upsert(db.log, LogEntry(db.funcionarios[id], Remocao, rowKey))
    ensures !Logged(res.1) ==> res.0.log == db.log
  {
    if id <= 0 then (db, BadRequest(InvalidId))
    else if id !in db.funcionarios then (db, NotFound)
    else if !saveOk then (db, ServerError(SaveFailed))
    else
      var banco := db.funcionarios[id];
      var saved := db.(funcionarios := db.funcionarios - {id});
      if !logOk then (saved, ServerError(LogFailed))
      else (saved.(log := Upsert(db.log, LogEntry(banco, Remocao, rowKey))), NoContent)
  }
}
