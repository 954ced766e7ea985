/** FuncionarioController: the object that serves the four endpoints. Its
    state is the two stores it writes to, the employee table (through the
    database context) and the audit table. Each action runs its checks in
    order, mutates the employee table, and writes to the audit table only
    after the save went through. */
module Controllers {
  import opened Models
  import opened Actions

  class FuncionarioController {
    var funcionarios: map<int, Funcionario>
    var log: seq<FuncionarioLog>

    /** The two stores as a value, as the transitions in Actions take them. */
    function State(): Db
      reads this
    {
      Db(funcionarios, log)
    }

    ghost predicate Valid()
      reads this
    {
      State().Valid()
    }

    /** A controller over the stores as they stand when the request arrives. */
    constructor (db: Db)
      requires db.Valid()
      ensures Valid() && State() == db
    {
      funcionarios := db.funcionarios;
      log := db.log;
    }

    /** GET /{id}. Changes nothing. */
    method ObterPorId(id: int, findOk: bool) returns (r: Response)
      ensures r == Actions.ObterPorId(State(), id, findOk)
      ensures r.Ok? ==> id in funcionarios && r.body == Some(funcionarios[id])
    {
      if id <= 0 {
        return BadRequest(InvalidId);
      }
      if !findOk {
        return ServerError(ReadFailed);
      }
      if id !in funcionarios {
        return NotFound;
      }
      return Ok(Some(funcionarios[id]));
    }

    /** POST /. The database assigns newId, a positive id not yet in use. */
    method Criar(funcionario: Option<Funcionario>, newId: int, saveOk: bool, logOk: bool, rowKey: string)
      returns (r: Response)
      requires Valid() && newId > 0 && newId !in funcionarios
      modifies this
      ensures Valid()
      ensures (State(), r) == Actions.Criar(old(State()), funcionario, newId, saveOk, logOk, rowKey)
    {
      if funcionario.None? {
        return BadRequest(MissingFuncionario);
      }
      var f := funcionario.value;
      if IsNullOrWhiteSpace(f.nome) {
        return BadRequest(MissingNome);
      }
      if IsNullOrWhiteSpace(f.emailProfissional) {
        return BadRequest(MissingEmail);
      }
      if f.salario <= 0.0 {
        return BadRequest(NonPositiveSalario);
      }

      // Add, then SaveChanges: the insert is committed only if the save succeeds
      if !saveOk {
        return ServerError(SaveFailed);
      }
      f := f.(id := newId);
      funcionarios := funcionarios[newId := f];

      // UpsertEntity into the audit table; its failure leaves the insert in place
      var entry := LogEntry(f, Inclusao, rowKey);
      if !logOk {
        return ServerError(LogFailed);
      }
      log := Upsert(log, entry);
      return Created(newId, f);
    }

    /** PUT /{id}. */
    method Atualizar(id: int, funcionario: Option<Funcionario>, saveOk: bool, logOk: bool, rowKey: string)
      returns (r: Response)
      requires Valid()
      modifies this
      ensures Valid()
      ensures (State(), r) == Actions.Atualizar(old(State()), id, funcionario, saveOk, logOk, rowKey)
    {
      if id <= 0 {
        return BadRequest(InvalidId);
      }
      if funcionario.None? {
        return BadRequest(MissingFuncionario);
      }
      var f := funcionario.value;
      if IsNullOrWhiteSpace(f.nome) {
        return BadRequest(MissingNome);
      }
      if IsNullOrWhiteSpace(f.emailProfissional) {
        return BadRequest(MissingEmail);
      }
      if f.salario <= 0.0 {
        return BadRequest(NonPositiveSalario);
      }

      if id !in funcionarios {
        return NotFound;
      }
      var banco := funcionarios[id];
      banco := banco.(nome := f.nome);
      banco := banco.(endereco := f.endereco);
      banco := banco.(ramal := f.ramal);
      banco := banco.(emailProfissional := f.emailProfissional);
      banco := banco.(departamento := f.departamento);
      banco := banco.(salario := f.salario);

      // Update, then SaveChanges
      if !saveOk {
        return ServerError(SaveFailed);
      }
      funcionarios := funcionarios[id := banco];

      var entry := LogEntry(banco, Atualizacao, rowKey);
      if !logOk {
        return ServerError(LogFailed);
      }
      log := Upsert(log, entry);
      return Ok(None);
    }

    /** DELETE /{id}. */
    method Deletar(id: int, saveOk: bool, logOk: bool, rowKey: string) returns (r: Response)
      requires Valid()
      modifies this
      ensures Valid()
      ensures (State(), r) == Actions.Deletar(old(State()), id, saveOk, logOk, rowKey)
    {
      if id <= 0 {
        return BadRequest(InvalidId);
      }
      if id !in funcionarios {
        return NotFound;
      }
      var banco := funcionarios[id];

      // Remove, then SaveChanges
      if !saveOk {
        return ServerError(SaveFailed);
      }
      funcionarios := funcionarios - {id};

      // the entry keeps the values the record had before it was removed
      var entry := LogEntry(banco, Remocao, rowKey);
      if !logOk {
        return ServerError(LogFailed);
      }
      log := Upsert(log, entry);
      return NoContent;
    }
  }
}
