/** The repository's per-type sum query: the total of `valor` over one user's
    entries of one type, absent when no row contributes. */
module LancamentoRepository {
  import opened Wrappers
  import opened Entidades

  /** The rows the query's join and `where` keep: the entry's user has id
      `idUsuario` and its type is `tipo`. SQL's `sum` skips a null `valor`,
      so such a row contributes only when its value is present. */
  predicate Corresponde(l: DadosLancamento, idUsuario: int, tipo: TipoLancamento) {
    && l.usuario.Some? && l.usuario.value.id == Some(idUsuario)
    && l.tipo == Some(tipo)
    && l.valor.Some?
  }

  /** The running sum after one more row. */
  function Passo(s: Option<real>, l: DadosLancamento, idUsuario: int, tipo: TipoLancamento): Option<real> {
    if !Corresponde(l, idUsuario, tipo) then s
    else match s
      case None => Some(l.valor.value)
      case Some(x) => Some(x + l.valor.value)
  }

  /** `obterSaldoPorTipoLancamentoEUsuario` over the stored rows: absent (null)
      exactly when no row contributes, not zero. */
  function ObterSaldoPorTipoLancamentoEUsuario(linhas: seq<DadosLancamento>, idUsuario: int, tipo: TipoLancamento): (r: Option<real>)
    ensures r.None? <==> forall i | 0 <= i < |linhas| :: !Corresponde(linhas[i], idUsuario, tipo)
  {
    if linhas == [] then None
    else
      var ultimo := linhas[|linhas| - 1];
      Passo(ObterSaldoPorTipoLancamentoEUsuario(linhas[..|linhas| - 1], idUsuario, tipo), ultimo, idUsuario, tipo)
  }

  /** The values of the contributing rows, in order. */
  function ValoresCorrespondentes(linhas: seq<DadosLancamento>, idUsuario: int, tipo: TipoLancamento): seq<real> {
    if linhas == [] then []
    else
      var resto := ValoresCorrespondentes(linhas[1..], idUsuario, tipo);
      if Corresponde(linhas[0], idUsuario, tipo) then [linhas[0].valor.value] + resto else resto
  }

  function Soma(vs: seq<real>): real {
    if vs == [] then 0.0 else vs[0] + Soma(vs[1..])
  }

  lemma {:induction false} SomaConcatenada(a: seq<real>, b: seq<real>)
    ensures Soma(a + b) == Soma(a) + Soma(b)
  {
    if a == [] {
      assert a + b == b;
    } else {
      assert (a + b)[1..] == a[1..] + b;
      SomaConcatenada(a[1..], b);
    }
  }

  lemma {:induction false} ValoresConcatenados(a: seq<DadosLancamento>, b: seq<DadosLancamento>, idUsuario: int, tipo: TipoLancamento)
    ensures ValoresCorrespondentes(a + b, idUsuario, tipo)
         == ValoresCorrespondentes(a, idUsuario, tipo) + ValoresCorrespondentes(b, idUsuario, tipo)
  {
    if a == [] {
      assert a + b == b;
    } else {
      assert (a + b)[1..] == a[1..] + b;
      ValoresConcatenados(a[1..], b, idUsuario, tipo);
    }
  }

  /** The query is the sum of `valor` over the rows of that user and type,
      present exactly when there is at least one such value. */
  lemma {:induction false} SaldoEhSomaDosCorrespondentes(linhas: seq<DadosLancamento>, idUsuario: int, tipo: TipoLancamento)
    ensures var vs := ValoresCorrespondentes(linhas, idUsuario, tipo);
            ObterSaldoPorTipoLancamentoEUsuario(linhas, idUsuario, tipo)
              == if vs == [] then None else Some(Soma(vs))
  {
    if linhas != [] {
      var n := |linhas| - 1;
      var inicio, ultimo := linhas[..n], linhas[n];
      assert linhas == inicio + [ultimo];
      SaldoEhSomaDosCorrespondentes(inicio, idUsuario, tipo);
      ValoresConcatenados(inicio, [ultimo], idUsuario, tipo);
      assert [ultimo][1..] == [];
      var vs := ValoresCorrespondentes(inicio, idUsuario, tipo);
      if Corresponde(ultimo, idUsuario, tipo) {
        var v := ultimo.valor.value;
        assert ValoresCorrespondentes([ultimo], idUsuario, tipo) == [v];
        SomaConcatenada(vs, [v]);
        assert Soma([v]) == v + Soma([]);
        assert vs + [v] != [];
      } else {
        assert ValoresCorrespondentes([ultimo], idUsuario, tipo) == [];
        assert vs + [] == vs;
      }
    }
  }

  /** Appending a contributing row of value v raises a present sum by v, or
      makes an absent one v. */
  lemma AcrescentarCorrespondente(linhas: seq<DadosLancamento>, l: DadosLancamento, idUsuario: int, tipo: TipoLancamento)
    requires Corresponde(l, idUsuario, tipo)
    ensures var antes := ObterSaldoPorTipoLancamentoEUsuario(linhas, idUsuario, tipo);
            ObterSaldoPorTipoLancamentoEUsuario(linhas + [l], idUsuario, tipo)
              == Some(if antes.Some? then antes.value + l.valor.value else l.valor.value)
  {
  }

  /** The query over rows plus one more is one more step of the sum. */
  lemma UmaLinhaAMais(linhas: seq<DadosLancamento>, l: DadosLancamento, idUsuario: int, tipo: TipoLancamento)
    ensures ObterSaldoPorTipoLancamentoEUsuario(linhas + [l], idUsuario, tipo)
         == Passo(ObterSaldoPorTipoLancamentoEUsuario(linhas, idUsuario, tipo), l, idUsuario, tipo)
  {
  }

  /** Two steps of the sum commute. */
  lemma PassosComutam(s: Option<real>, x: DadosLancamento, y: DadosLancamento, idUsuario: int, tipo: TipoLancamento)
    ensures Passo(Passo(s, x, idUsuario, tipo), y, idUsuario, tipo)
         == Passo(Passo(s, y, idUsuario, tipo), x, idUsuario, tipo)
  {
  }

  /** Moving a row to the end does not change the sum. */
  lemma {:induction false} MoverParaOFim(a: seq<DadosLancamento>, x: DadosLancamento, b: seq<DadosLancamento>, idUsuario: int, tipo: TipoLancamento)
    ensures ObterSaldoPorTipoLancamentoEUsuario(a + [x] + b, idUsuario, tipo)
         == ObterSaldoPorTipoLancamentoEUsuario(a + b + [x], idUsuario, tipo)
    decreases |b|
  {
    if b == [] {
      assert a + [x] + b == a + b + [x];
    } else {
      var c, y := b[..|b| - 1], b[|b| - 1];
      assert a + [x] + b == (a + [x] + c) + [y];
      assert a + b + [x] == ((a + c) + [y]) + [x];
      MoverParaOFim(a, x, c, idUsuario, tipo);
      UmaLinhaAMais(a + [x] + c, y, idUsuario, tipo);
      UmaLinhaAMais(a + c, x, idUsuario, tipo);
      UmaLinhaAMais(a + c + [y], x, idUsuario, tipo);
      UmaLinhaAMais(a + c, y, idUsuario, tipo);
      PassosComutam(ObterSaldoPorTipoLancamentoEUsuario(a + c, idUsuario, tipo), x, y, idUsuario, tipo);
    }
  }

  /** Removing the last element of `a` and one equal element of `b` keeps two
      equal multisets equal. */
  lemma RetirarCorrespondente<T>(a: seq<T>, b: seq<T>, k: nat)
    requires multiset(a) == multiset(b)
    requires a != [] && k < |b| && b[k] == a[|a| - 1]
    ensures multiset(a[..|a| - 1]) == multiset(b[..k] + b[k + 1..])
  {
    var x := a[|a| - 1];
    assert a == a[..|a| - 1] + [x];
    assert b == b[..k] + [x] + b[k + 1..];
    assert multiset(a[..|a| - 1]) == multiset(a) - multiset{x};
    assert multiset(b[..k] + b[k + 1..]) == multiset(b) - multiset{x};
  }

  /** The result does not depend on the order of the rows. */
  lemma {:induction false} SaldoIndependeDaOrdem(a: seq<DadosLancamento>, b: seq<DadosLancamento>, idUsuario: int, tipo: TipoLancamento)
    requires multiset(a) == multiset(b)
    ensures ObterSaldoPorTipoLancamentoEUsuario(a, idUsuario, tipo)
         == ObterSaldoPorTipoLancamentoEUsuario(b, idUsuario, tipo)
    decreases |a|
  {
    if a == [] {
      assert b == [];
    } else {
      var n := |a| - 1;
      var x := a[n];
      assert x in multiset(b);
      var k :| 0 <= k < |b| && b[k] == x;
      var b1, b2 := b[..k], b[k + 1..];
      RetirarCorrespondente(a, b, k);
      SaldoIndependeDaOrdem(a[..n], b1 + b2, idUsuario, tipo);
      MoverParaOFim(b1, x, b2, idUsuario, tipo);
      assert b == b1 + [x] + b2;
      assert (b1 + b2 + [x])[..|b1 + b2|] == b1 + b2;
    }
  }

  /** A row of another user or of the other type, wherever it stands, does not
      affect the result. */
  lemma {:induction false} IgnoraOutrasLinhas(a: seq<DadosLancamento>, l: DadosLancamento, b: seq<DadosLancamento>, idUsuario: int, tipo: TipoLancamento)
    requires !Corresponde(l, idUsuario, tipo)
    ensures ObterSaldoPorTipoLancamentoEUsuario(a + [l] + b, idUsuario, tipo)
         == ObterSaldoPorTipoLancamentoEUsuario(a + b, idUsuario, tipo)
  {
    MoverParaOFim(a, l, b, idUsuario, tipo);
    assert (a + b + [l])[..|a + b|] == a + b;
  }
}
