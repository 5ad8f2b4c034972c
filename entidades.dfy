/** The entities, enums and exceptions the services work with. */
module Entidades {
  import opened Wrappers

  /** A registered user. `id` is assigned by the storage when the user is saved;
      the password is an opaque string compared by equality. */
  datatype Usuario = Usuario(id: Option<int>, nome: string, email: string, senha: string)

  datatype TipoLancamento = Receita | Despesa

  datatype StatusLancamento = Pendente | Cancelado | Efetivado

  /** The field values of an entry. Every field may be null in the entity,
      so every field is an Option; `new Lancamento()` has them all absent. */
  datatype DadosLancamento = DadosLancamento(
    id: Option<int>,
    descricao: Option<string>,
    mes: Option<int>,
    ano: Option<int>,
    usuario: Option<Usuario>,
    valor: Option<real>,
    tipo: Option<TipoLancamento>,
    status: Option<StatusLancamento>)

  /** An entry with every field null. */
  const LancamentoVazio: DadosLancamento :=
    DadosLancamento(None, None, None, None, None, None, None, None)

  /** The three kinds of failure: a business-rule violation and an
      authentication failure, both carrying a message for the user, and the
      fatal null-pointer error raised when an entry without id is updated or
      deleted. */
  datatype Erro =
    | RegraNegocio(mensagem: string)
    | ErroAutenticacao(mensagem: string)
    | PonteiroNulo

  /** An entry object held by the caller. The service changes it in place:
      saving sets its id and status, updating the status sets its status. */
  class Lancamento {
    var dados: DadosLancamento

    constructor (dados: DadosLancamento)
      ensures this.dados == dados
    {
      this.dados := dados;
    }
  }
}
