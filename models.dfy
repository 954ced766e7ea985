/** The entities the employee controller works on: the employee record kept in
    the relational store, the audit entry written to the table store, and the
    nullable strings both are made of. */
module Models {

  datatype Option<+T> = None | Some(value: T)

  /** A .NET string, which may be null. */
  type Text = Option<string>

  /** The characters .NET's char.IsWhiteSpace accepts: the Unicode space,
      line and paragraph separators, the controls U+0009 to U+000D and U+0085. */
  predicate IsWhiteSpace(c: char) {
    || ('\t' <= c <= '\r')
    || c == ' '
    || c == '\U{0085}'
    || c == '\U{00A0}'
    || c == '\U{1680}'
    || ('\U{2000}' <= c <= '\U{200A}')
    || c == '\U{2028}'
    || c == '\U{2029}'
    || c == '\U{202F}'
    || c == '\U{205F}'
    || c == '\U{3000}'
  }

  /** string.IsNullOrWhiteSpace: null, empty, or white space only. */
  predicate IsNullOrWhiteSpace(t: Text) {
    match t
    case None => true
    case Some(s) => forall i :: 0 <= i < |s| ==> IsWhiteSpace(s[i])
  }

  /** An employee record (Funcionario). The id is assigned by the database;
      the other six fields are what a client sends and what Atualizar copies. */
  datatype Funcionario = Funcionario(
    id: int,
    nome: Text,
    endereco: Text,
    ramal: Text,
    emailProfissional: Text,
    departamento: Text,
    salario: real)

  /** The action an audit entry records (TipoAcao). */
  datatype TipoAcao = Inclusao | Atualizacao | Remocao

  /** An audit entry (FuncionarioLog) as its constructor receives it: a
      snapshot of the record, the action, the partition key and the row key. */
  datatype FuncionarioLog = FuncionarioLog(
    funcionario: Funcionario,
    tipoAcao: TipoAcao,
    partitionKey: Text,
    rowKey: string)
}
