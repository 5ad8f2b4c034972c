/** Entry validation and the entry lifecycle: save, update, delete and
    status change over the repository's table of entries.

    The rules behind five of the six checks are known only through the facts
    the service's tests pin down, so they are parameters (`Regras`) restricted
    by those facts (`ConformeTestes`); the order of the checks, their messages
    and everything the service does around them are modelled exactly. */
module LancamentoService {
  import opened Wrappers
  import opened Entidades

  const MsgDescricao: string := "Informe uma descrição válida."
  const MsgMes: string := "Informe um mês válido."
  const MsgAno: string := "Informe um ano válido."
  const MsgUsuario: string := "Informe um usuário."
  const MsgValor: string := "Informe um valor válido."
  const MsgTipo: string := "Informe um tipo de lançamento"

  /** The six checks' messages, in the order the checks run. */
  const Mensagens: seq<string> := [MsgDescricao, MsgMes, MsgAno, MsgUsuario, MsgValor, MsgTipo]

  /** What each of the first five checks accepts, null included. */
  datatype Regras = Regras(
    descricaoValida: Option<string> -> bool,
    mesValido: Option<int> -> bool,
    anoValido: Option<int> -> bool,
    usuarioValido: Option<Usuario> -> bool,
    valorValido: Option<real> -> bool)

  /** The user the tests attach to an entry: a new user whose id is set to 1. */
  const UsuarioDeId1: Usuario := Usuario(Some(1), "", "", "")

  /** The facts the tests pin down about each check: a null or empty
      description, a null month, the year 13, a null user and a null or zero
      value are rejected; the description "Salario", month 1, year 2020, the
      user with id 1 and the value 1 are accepted. */
  ghost predicate ConformeTestes(r: Regras) {
    && !r.descricaoValida(None) && !r.descricaoValida(Some("")) && r.descricaoValida(Some("Salario"))
    && !r.mesValido(None) && r.mesValido(Some(1))
    && !r.anoValido(Some(13)) && r.anoValido(Some(2020))
    && !r.usuarioValido(None) && r.usuarioValido(Some(UsuarioDeId1))
    && !r.valorValido(None) && !r.valorValido(Some(0.0)) && r.valorValido(Some(1.0))
  }

  /** Whether entry `l` passes check number `k` (0 to 5, in order). */
  predicate Cumpre(regras: Regras, l: DadosLancamento, k: nat)
    requires k < 6
  {
    match k
    case 0 => regras.descricaoValida(l.descricao)
    case 1 => regras.mesValido(l.mes)
    case 2 => regras.anoValido(l.ano)
    case 3 => regras.usuarioValido(l.usuario)
    case 4 => regras.valorValido(l.valor)
    case _ => l.tipo.Some?
  }

  /** Check `k` is the first one `l` fails. */
  predicate PrimeiraFalha(regras: Regras, l: DadosLancamento, k: nat)
    requires k < 6
  {
    (forall j | 0 <= j < k :: Cumpre(regras, l, j)) && !Cumpre(regras, l, k)
  }

  /** The six messages are distinct, so a message names its check. */
  lemma MensagensDistintas()
    ensures forall i, j | 0 <= i < j < 6 :: Mensagens[i] != Mensagens[j]
  {
  }

  /** The six checks, one by one. */
  lemma CumpreCadaRegra(regras: Regras, l: DadosLancamento)
    ensures Cumpre(regras, l, 0) == regras.descricaoValida(l.descricao)
    ensures Cumpre(regras, l, 1) == regras.mesValido(l.mes)
    ensures Cumpre(regras, l, 2) == regras.anoValido(l.ano)
    ensures Cumpre(regras, l, 3) == regras.usuarioValido(l.usuario)
    ensures Cumpre(regras, l, 4) == regras.valorValido(l.valor)
    ensures Cumpre(regras, l, 5) == l.tipo.Some?
  {
  }

  /** `validar`: passes exactly when every check passes; otherwise fails
      with the business error carrying the message of the first check that
      fails, and only that one. */
  function Validar(regras: Regras, l: DadosLancamento): (r: Outcome<Erro>)
    ensures r.Pass? <==> forall k | 0 <= k < 6 :: Cumpre(regras, l, k)
    ensures forall k | 0 <= k < 6 ::
              r == Fail(RegraNegocio(Mensagens[k])) <==> PrimeiraFalha(regras, l, k)
    ensures r.Fail? ==> r.error.RegraNegocio?
  {
    MensagensDistintas();
    CumpreCadaRegra(regras, l);
    if !regras.descricaoValida(l.descricao) then Fail(RegraNegocio(MsgDescricao))
    else if !regras.mesValido(l.mes) then Fail(RegraNegocio(MsgMes))
    else if !regras.anoValido(l.ano) then Fail(RegraNegocio(MsgAno))
    else if !regras.usuarioValido(l.usuario) then Fail(RegraNegocio(MsgUsuario))
    else if !regras.valorValido(l.valor) then Fail(RegraNegocio(MsgValor))
    else if l.tipo.None? then Fail(RegraNegocio(MsgTipo))
    else Pass
  }

  /** A null or empty description is reported whatever the other fields are. */
  lemma DescricaoInvalidaPrevalece(regras: Regras, l: DadosLancamento)
    requires ConformeTestes(regras)
    requires l.descricao == None || l.descricao == Some("")
    ensures Validar(regras, l) == Fail(RegraNegocio(MsgDescricao))
  {
  }

  /** With an accepted description, a null month is reported whatever the
      year is, 0 and 13 included. */
  lemma MesNuloPrevalece(regras: Regras, l: DadosLancamento)
    requires ConformeTestes(regras)
    requires regras.descricaoValida(l.descricao) && l.mes == None
    ensures Validar(regras, l) == Fail(RegraNegocio(MsgMes))
  {
  }

  /** With an accepted description and month 1, year 13 is reported, and
      year 2020 passes the year check. */
  lemma AnoDoTeste(regras: Regras, l: DadosLancamento)
    requires ConformeTestes(regras)
    requires regras.descricaoValida(l.descricao) && l.mes == Some(1)
    ensures l.ano == Some(13) ==> Validar(regras, l) == Fail(RegraNegocio(MsgAno))
    ensures l.ano == Some(2020) ==> Validar(regras, l) != Fail(RegraNegocio(MsgAno))
  {
  }

  /** The later checks, once the earlier ones pass: a null user, a null or zero
      value and a null type are each reported; the user with id 1 and the
      value 1 pass their checks. */
  lemma ChecagensFinais(regras: Regras, l: DadosLancamento)
    requires ConformeTestes(regras)
    requires regras.descricaoValida(l.descricao) && regras.mesValido(l.mes) && regras.anoValido(l.ano)
    ensures l.usuario == None ==> Validar(regras, l) == Fail(RegraNegocio(MsgUsuario))
    ensures l.usuario == Some(UsuarioDeId1) && (l.valor == None || l.valor == Some(0.0)) ==>
              Validar(regras, l) == Fail(RegraNegocio(MsgValor))
    ensures l.usuario == Some(UsuarioDeId1) && l.valor == Some(1.0) && l.tipo == None ==>
              Validar(regras, l) == Fail(RegraNegocio(MsgTipo))
  {
  }

  /** The test's walk through the checks: starting from an empty entry and
      filling in one field at a time, each step reports the message the test
      expects. */
  lemma CenarioDeValidacao(regras: Regras)
    requires ConformeTestes(regras)
    ensures var l0 := LancamentoVazio;
            var l1 := l0.(descricao := Some(""));
            var l2 := l1.(descricao := Some("Salario"));
            var l3 := l2.(ano := Some(0));
            var l4 := l3.(ano := Some(13));
            var l5 := l4.(mes := Some(1));
            var l6 := l5.(ano := Some(2020));
            var l7 := l6.(usuario := Some(UsuarioDeId1));
            var l8 := l7.(valor := Some(0.0));
            var l9 := l8.(valor := Some(1.0));
            && Validar(regras, l0) == Fail(RegraNegocio(MsgDescricao))
            && Validar(regras, l1) == Fail(RegraNegocio(MsgDescricao))
            && Validar(regras, l2) == Fail(RegraNegocio(MsgMes))
            && Validar(regras, l3) == Fail(RegraNegocio(MsgMes))
            && Validar(regras, l4) == Fail(RegraNegocio(MsgMes))
            && Validar(regras, l5) == Fail(RegraNegocio(MsgAno))
            && Validar(regras, l6) == Fail(RegraNegocio(MsgUsuario))
            && Validar(regras, l7) == Fail(RegraNegocio(MsgValor))
            && Validar(regras, l8) == Fail(RegraNegocio(MsgValor))
            && Validar(regras, l9) == Fail(RegraNegocio(MsgTipo))
  {
  }

  /** A call the service makes on the repository. */
  datatype Chamada = Save(dados: DadosLancamento) | Delete(dados: DadosLancamento)

  /** The entry service over the repository's table of entries. */
  class LancamentoServiceImpl {
    /** The validation rules `validar` applies. */
    const regras: Regras
    /** The stored entries, by id. */
    var lancamentos: map<int, DadosLancamento>
    /** The next id the storage assigns. */
    var proximoId: int
    /** Every call made on the repository, in order. */
    ghost var chamadas: seq<Chamada>

    /** Every row carries its own key as id, below the next id to assign. */
    ghost predicate Valid()
      reads this
    {
      forall id | id in lancamentos :: lancamentos[id].id == Some(id) && id < proximoId
    }

    constructor (regras: Regras)
      ensures Valid() && this.regras == regras
      ensures lancamentos == map[] && chamadas == []
    {
      this.regras := regras;
      lancamentos := map[];
      proximoId := 1;
      chamadas := [];
    }

    /** `salvar`: validate first; on failure nothing is saved and the entry
        is untouched. Otherwise the entry is marked PENDENTE and saved once:
        an entry without id comes back carrying a newly assigned id, one that
        already has an id is stored under that id, replacing the row there. */
    method Salvar(l: Lancamento) returns (r: Result<Lancamento, Erro>)
      requires Valid()
      modifies this, l
      ensures Valid()
      ensures Validar(regras, old(l.dados)).Fail? ==>
                && r == Err(Validar(regras, old(l.dados)).error)
                && l.dados == old(l.dados)
                && lancamentos == old(lancamentos) && chamadas == old(chamadas)
      ensures Validar(regras, old(l.dados)).Pass? ==>
                && r == Ok(l)
                && l.dados.id.Some?
                && (old(l.dados).id.Some? ==> l.dados.id == old(l.dados).id)
                && (old(l.dados).id.None? ==> l.dados.id.value !in old(lancamentos))
                && l.dados == old(l.dados).(id := l.dados.id, status := Some(Pendente))
                && lancamentos == old(lancamentos)[l.dados.id.value := l.dados]
                && chamadas == old(chamadas) + [Save(old(l.dados).(status := Some(Pendente)))]
    {
      var valido := Validar(regras, l.dados);
      if valido.Fail? {
        return Err(valido.error);
      }
      l.dados := l.dados.(status := Some(Pendente));
      chamadas := chamadas + [Save(l.dados)];
      var id: int;
      if l.dados.id.Some? {
        id := l.dados.id.value;
        if proximoId <= id {
          proximoId := id + 1;
        }
      } else {
        id := proximoId;
        l.dados := l.dados.(id := Some(id));
        proximoId := proximoId + 1;
      }
      lancamentos := lancamentos[id := l.dados];
      r := Ok(l);
    }

    /** `atualizar`: an entry without id is the fatal null-pointer error and
        the repository is not touched; otherwise the entry is validated and,
        if it passes, saved once under its id. */
    method Atualizar(l: Lancamento) returns (r: Result<Lancamento, Erro>)
      requires Valid()
      modifies this
      ensures Valid()
      ensures l.dados.id.None? ==>
                r == Err(PonteiroNulo) && lancamentos == old(lancamentos) && chamadas == old(chamadas)
      ensures l.dados.id.Some? && Validar(regras, l.dados).Fail? ==>
                && r == Err(Validar(regras, l.dados).error)
                && lancamentos == old(lancamentos) && chamadas == old(chamadas)
      ensures l.dados.id.Some? && Validar(regras, l.dados).Pass? ==>
                && r == Ok(l)
                && lancamentos == old(lancamentos)[l.dados.id.value := l.dados]
                && chamadas == old(chamadas) + [Save(l.dados)]
    {
      if l.dados.id.None? {
        return Err(PonteiroNulo);
      }
      var valido := Validar(regras, l.dados);
      if valido.Fail? {
        return Err(valido.error);
      }
      chamadas := chamadas + [Save(l.dados)];
      var id := l.dados.id.value;
      lancamentos := lancamentos[id := l.dados];
      if proximoId <= id {
        proximoId := id + 1;
      }
      r := Ok(l);
    }

    /** `deletar`: an entry without id is the fatal null-pointer error and the
        repository is not touched; otherwise the row is deleted, once. */
    method Deletar(l: Lancamento) returns (r: Outcome<Erro>)
      requires Valid()
      modifies this
      ensures Valid()
      ensures l.dados.id.None? ==>
                r == Fail(PonteiroNulo) && lancamentos == old(lancamentos) && chamadas == old(chamadas)
      ensures l.dados.id.Some? ==>
                && r == Pass
                && lancamentos == old(lancamentos) - {l.dados.id.value}
                && chamadas == old(chamadas) + [Delete(l.dados)]
    {
      if l.dados.id.None? {
        return Fail(PonteiroNulo);
      }
      chamadas := chamadas + [Delete(l.dados)];
      lancamentos := lancamentos - {l.dados.id.value};
      r := Pass;
    }

    /** `atualizarStatus`: the caller's entry gets the new status in place, and
        then goes through `atualizar` once, with the outcome `atualizar`
        promises for the changed entry. */
    method AtualizarStatus(l: Lancamento, status: StatusLancamento) returns (r: Result<Lancamento, Erro>)
      requires Valid()
      modifies this, l
      ensures Valid()
      ensures l.dados == old(l.dados).(status := Some(status))
      ensures l.dados.id.None? ==>
                r == Err(PonteiroNulo) && lancamentos == old(lancamentos) && chamadas == old(chamadas)
      ensures l.dados.id.Some? && Validar(regras, l.dados).Fail? ==>
                && r == Err(Validar(regras, l.dados).error)
                && lancamentos == old(lancamentos) && chamadas == old(chamadas)
      ensures l.dados.id.Some? && Validar(regras, l.dados).Pass? ==>
                && r == Ok(l)
                && lancamentos == old(lancamentos)[l.dados.id.value := l.dados]
                && chamadas == old(chamadas) + [Save(l.dados)]
    {
      l.dados := l.dados.(status := Some(status));
      r := Atualizar(l);
    }
  }
}
