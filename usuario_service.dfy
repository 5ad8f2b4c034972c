/** The user registry: registration with a unique email, authentication by
    email and password, and lookup by id, over the table of stored users. */
module UsuarioService {
  import opened Wrappers
  import opened Entidades

  const MsgUsuarioNaoEncontrado: string := "Usuário não encontrado para o email informado."
  const MsgSenhaInvalida: string := "Senha inválida"
  const MsgEmailJaCadastrado: string := "Já existe um usuário cadastrado com este email."

  /** The stored users, by id. */
  type Tabela = map<int, Usuario>

  /** No two stored users share an email. */
  ghost predicate EmailsUnicos(t: Tabela) {
    forall i, j | i in t && j in t :: t[i].email == t[j].email ==> i == j
  }

  /** The emails of the stored users. */
  function Emails(t: Tabela): set<string> {
    set id | id in t :: t[id].email
  }

  /** The repository's `existsByEmail`: true exactly when some stored user
      has the email. */
  predicate ExisteEmail(t: Tabela, email: string): (b: bool)
    ensures b <==> email in Emails(t)
  {
    exists id | id in t :: t[id].email == email
  }

  /** The repository's `findByEmail`: the one user with that email, if any.
      The derived query returns at most one row, which the registry's
      invariant guarantees. */
  function BuscarPorEmail(t: Tabela, email: string): (r: Option<Usuario>)
    requires EmailsUnicos(t)
    ensures r.Some? <==> ExisteEmail(t, email)
    ensures r.Some? ==> r.value.email == email && r.value in t.Values
  {
    if ExisteEmail(t, email) then
      var id :| id in t && t[id].email == email;
      Some(t[id])
    else
      None
  }

  /** `autenticar`: an unknown email and a wrong password are two distinct
      authentication errors; on success the stored user is returned. */
  function Autenticar(t: Tabela, email: string, senha: string): (r: Result<Usuario, Erro>)
    requires EmailsUnicos(t)
    ensures r == Err(ErroAutenticacao(MsgUsuarioNaoEncontrado)) <==> !ExisteEmail(t, email)
    ensures r == Err(ErroAutenticacao(MsgSenhaInvalida)) <==>
              exists id | id in t :: t[id].email == email && t[id].senha != senha
    ensures r.Ok? <==> exists id | id in t :: t[id].email == email && t[id].senha == senha
    ensures r.Ok? ==> r.value in t.Values && r.value.email == email && r.value.senha == senha
  {
    match BuscarPorEmail(t, email)
    case None => Err(ErroAutenticacao(MsgUsuarioNaoEncontrado))
    case Some(u) =>
      if u.senha != senha then Err(ErroAutenticacao(MsgSenhaInvalida)) else Ok(u)
  }

  /** `validarEmail`: fails with the business error exactly when some stored
      user already has the email. Being a function of the table, it cannot
      change it. */
  function ValidarEmail(t: Tabela, email: string): (r: Outcome<Erro>)
    ensures r.Fail? <==> ExisteEmail(t, email)
    ensures r.Fail? ==> r.error == RegraNegocio(MsgEmailJaCadastrado)
  {
    if ExisteEmail(t, email) then Fail(RegraNegocio(MsgEmailJaCadastrado)) else Pass
  }

  /** `obterUsuarioPorId`: present exactly when a user with that id is stored;
      absence is not an error. */
  function ObterUsuarioPorId(t: Tabela, id: int): (r: Option<Usuario>)
    ensures r.Some? <==> id in t
    ensures r.Some? ==> r.value == t[id]
  {
    if id in t then Some(t[id]) else None
  }

  /** Storing a user whose email passed `validarEmail` keeps emails unique,
      and that user can then authenticate with its email and password. */
  lemma AutenticarAposRegistro(t: Tabela, id: int, u: Usuario)
    requires EmailsUnicos(t)
    requires ValidarEmail(t, u.email) == Pass
    ensures EmailsUnicos(t[id := u])
    ensures Autenticar(t[id := u], u.email, u.senha) == Ok(u)
  {
    assert t[id := u][id].email == u.email;
  }

  /** Once a user is stored, registering another user with the same email is
      refused with the business error. */
  lemma RegistroDuplicadoRecusado(t: Tabela, id: int, u: Usuario, outro: Usuario)
    requires outro.email == u.email
    ensures ValidarEmail(t[id := u], outro.email) == Fail(RegraNegocio(MsgEmailJaCadastrado))
  {
    assert t[id := u][id].email == outro.email;
  }

  /** The registry: the user table the repository holds, and the storage's id
      generator. */
  class UsuarioServiceImpl {
    var usuarios: Tabela
    var proximoId: int

    /** Every row carries its own key as id, ids are below the next one the
        storage hands out, and no two users share an email. */
    ghost predicate Valid()
      reads this
    {
      && EmailsUnicos(usuarios)
      && (forall id | id in usuarios :: usuarios[id].id == Some(id) && id < proximoId)
    }

    constructor ()
      ensures Valid() && usuarios == map[]
    {
      usuarios := map[];
      proximoId := 1;
    }

    /** `salvarUsuario`: check the email first, then save. A used email leaves
        the table as it was; a fresh one adds exactly one user under a new id,
        who can then authenticate. */
    method SalvarUsuario(u: Usuario) returns (r: Result<Usuario, Erro>)
      requires Valid()
      modifies this
      ensures Valid()
      ensures ExisteEmail(old(usuarios), u.email) ==>
                r == Err(RegraNegocio(MsgEmailJaCadastrado)) && usuarios == old(usuarios)
      ensures !ExisteEmail(old(usuarios), u.email) ==>
                && r.Ok? && r.value.id.Some?
                && r.value == u.(id := r.value.id)
                && r.value.id.value !in old(usuarios)
                && usuarios == old(usuarios)[r.value.id.value := r.value]
      ensures r.Ok? ==> Autenticar(usuarios, u.email, u.senha) == Ok(r.value)
    {
      var valido := ValidarEmail(usuarios, u.email);
      if valido.Fail? {
        return Err(valido.error);
      }
      var id := proximoId;
      var salvo := u.(id := Some(id));
      AutenticarAposRegistro(usuarios, id, salvo);
      usuarios := usuarios[id := salvo];
      proximoId := proximoId + 1;
      r := Ok(salvo);
    }
  }
}
