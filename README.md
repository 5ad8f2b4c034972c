# minhas-financas core, modelled in Dafny

A model of three parts of the personal-finance backend "minhas-financas":

- **The user registry** (`UsuarioServiceImpl`): registering a user after checking that the email is unused, authenticating by email and password, checking email uniqueness, and looking a user up by id. The user table (id → user) and the storage's id generator are fields of the class `UsuarioService.UsuarioServiceImpl`. `SalvarUsuario` is a method that changes the table. The read-only operations are functions over the table. The repository's `existsByEmail` and `findByEmail` are lookups on that table. The class invariant `Valid()` says that no two users share an email.
- **Entry validation and the entry lifecycle** (`LancamentoServiceImpl`, as its tests pin it down). `LancamentoService.Validar` is the chain of six checks in their fixed order. Each check has its exact message, and the first failing check is the one reported. `LancamentoService.LancamentoServiceImpl` holds the entry table and implements `salvar`, `atualizar`, `deletar` and `atualizarStatus`. The caller's entry is an object (`Entidades.Lancamento`) that the service changes in place: `salvar` sets its status and id, and `atualizarStatus` sets its status. A ghost log `chamadas` records every `save` and `delete` call made on the repository, so "saved exactly once" and "repository never touched" can be stated.
- **The per-type sum query** (`LancamentoRepository.obterSaldoPorTipoLancamentoEUsuario`). It is a recursive function over the stored rows. It returns `Option<real>`, because BigDecimal is exact. The result is absent when no row contributes.

Errors are values: `Erro.RegraNegocio` (business rule), `Erro.ErroAutenticacao` (authentication) and `Erro.PonteiroNulo` (the fatal null-pointer error of `atualizar`/`deletar` on an entry without id). Operations return `Result` or `Outcome`.

`LancamentoServiceImpl`'s own source is not part of this model. Its behaviour comes from `LancamentoServiceTest`. Five of the six checks' exact rules (description, month, year, user, value) are therefore parameters, the function-valued fields of `Regras`. The predicate `ConformeTestes` restricts them to the facts the test asserts:
- rejected: a null or empty description, a null month, year 13, a null user, and a null or zero value;
- accepted: description "Salario", month 1, year 2020, the user with id 1, and value 1.

The sixth check, type not null, is concrete.

Two behaviours of the entry service deserve a note:
- **Year check.** The test at `LancamentoServiceTest.java:203-211` rejects year 13 with month 1, so the year rule is more than a null check. `ConformeTestes` states that 13 is rejected and 2020 accepted, and nothing more.
- **Status on save.** `Salvar` marks the entry PENDENTE before saving it. The test at `LancamentoServiceTest.java:47-62` neither requires nor rules this out. It sets PENDENTE on `lancamentoSalvo` (:53), which is the object the stubbed `repository.save` returns (:56), and :61 checks that returned object. So the forced PENDENTE is a modelling choice, recorded under "## Left out".

## Model

| member | source | states |
|---|---|---|
| UsuarioService.ExisteEmail | src/main/java/br/com/felipegabriel/minhasfinancas/model/repository/UsuarioRepository.java:13 | `existsByEmail` is true exactly when the email is among the emails of the stored users |
| UsuarioService.BuscarPorEmail | src/main/java/br/com/felipegabriel/minhasfinancas/model/repository/UsuarioRepository.java:11 | `findByEmail` finds a user exactly when some stored user has that email, and the user it returns is a stored user with that email |
| UsuarioService.Autenticar | src/main/java/br/com/felipegabriel/minhasfinancas/service/impl/UsuarioServiceImpl.java:23-35 | an unknown email gives exactly the authentication error "Usuário não encontrado para o email informado."; a known email with a different password gives exactly "Senha inválida"; success happens exactly when a stored user has that email and password, and returns that stored user |
| UsuarioService.ValidarEmail | src/main/java/br/com/felipegabriel/minhasfinancas/service/impl/UsuarioServiceImpl.java:44-53 | fails exactly when some stored user has the email, and the failure is the business error "Já existe um usuário cadastrado com este email."; as a function of the table it changes nothing |
| UsuarioService.ObterUsuarioPorId | src/main/java/br/com/felipegabriel/minhasfinancas/service/impl/UsuarioServiceImpl.java:55-58 | present exactly when the id is stored, and then it is that stored user; absence is not an error |
| UsuarioService.AutenticarAposRegistro | src/main/java/br/com/felipegabriel/minhasfinancas/service/impl/UsuarioServiceImpl.java:23-42 | storing a user whose email passed the uniqueness check keeps emails unique, and that user then authenticates with its own email and password (the round trip) |
| UsuarioService.RegistroDuplicadoRecusado | src/main/java/br/com/felipegabriel/minhasfinancas/service/impl/UsuarioServiceImpl.java:39-53 | once a user is stored, registering any user with the same email fails with the business error |
| UsuarioService.UsuarioServiceImpl.SalvarUsuario | src/main/java/br/com/felipegabriel/minhasfinancas/service/impl/UsuarioServiceImpl.java:37-42 | a used email gives the business error and leaves the table unchanged; a fresh email adds exactly one user, under a new id, equal to the argument apart from that id, and leaves the other users as they were; email uniqueness is kept; the saved user then authenticates |
| LancamentoService.Validar | src/test/java/br/com/felipegabriel/minhasfinancas/service/LancamentoServiceTest.java:181-234 | passes exactly when all six checks pass; fails with the message of check k exactly when k is the first check that fails (the order is description, month, year, user, value, type); every failure is a business error |
| LancamentoService.MensagensDistintas | src/test/java/br/com/felipegabriel/minhasfinancas/service/LancamentoServiceTest.java:186-232 | the six messages are pairwise distinct, so the reported message identifies the failing check |
| LancamentoService.DescricaoInvalidaPrevalece | src/test/java/br/com/felipegabriel/minhasfinancas/service/LancamentoServiceTest.java:183-191 | a null or empty description is reported whatever the other fields are |
| LancamentoService.MesNuloPrevalece | src/test/java/br/com/felipegabriel/minhasfinancas/service/LancamentoServiceTest.java:193-206 | with an accepted description, a null month is reported whatever the year is (0 and 13 included) |
| LancamentoService.AnoDoTeste | src/test/java/br/com/felipegabriel/minhasfinancas/service/LancamentoServiceTest.java:208-216 | with month 1, year 13 is reported, and year 2020 passes the year check |
| LancamentoService.ChecagensFinais | src/test/java/br/com/felipegabriel/minhasfinancas/service/LancamentoServiceTest.java:215-232 | after the first three checks pass: a null user is reported; with the user of id 1, a null or zero value is reported; with value 1, a null type is reported |
| LancamentoService.CenarioDeValidacao | src/test/java/br/com/felipegabriel/minhasfinancas/service/LancamentoServiceTest.java:182-233 | the test's sequence of entries, from an empty entry filled in one field at a time, gets exactly the message the test expects at each step |
| LancamentoService.LancamentoServiceImpl.Salvar | src/test/java/br/com/felipegabriel/minhasfinancas/service/LancamentoServiceTest.java:47-72 | a failing validation is returned and nothing is saved, with the entry untouched; otherwise exactly one save happens and the entry returned is the caller's, with status PENDENTE and nothing else changed but its id: an entry without id gets a new id not yet in the table, an entry with an id keeps it, and the table gets the entry under that id (replacing any row there) with every other row unchanged |
| LancamentoService.LancamentoServiceImpl.Atualizar | src/test/java/br/com/felipegabriel/minhasfinancas/service/LancamentoServiceTest.java:74-96 | an entry without id gives the fatal null-pointer error and the repository is not called; with an id, a failing validation is returned with nothing saved, and otherwise exactly one save stores the entry under its id |
| LancamentoService.LancamentoServiceImpl.Deletar | src/test/java/br/com/felipegabriel/minhasfinancas/service/LancamentoServiceTest.java:98-115 | an entry without id gives the fatal null-pointer error and nothing is deleted; with an id, exactly one delete removes that row |
| LancamentoService.LancamentoServiceImpl.AtualizarStatus | src/test/java/br/com/felipegabriel/minhasfinancas/service/LancamentoServiceTest.java:135-149 | the caller's entry gets the new status in place and nothing else of it changes, and then the outcome is exactly `atualizar`'s for the changed entry |
| LancamentoRepository.ObterSaldoPorTipoLancamentoEUsuario | src/main/java/br/com/felipegabriel/minhasfinancas/model/repository/LancamentoRepository.java:14-19 | the result is absent (null, not zero) exactly when no row has that user id and type with a value |
| LancamentoRepository.SaldoEhSomaDosCorrespondentes | src/main/java/br/com/felipegabriel/minhasfinancas/model/repository/LancamentoRepository.java:14-16 | the result equals the sum of `valor` over the rows with that user id and that type, or is absent when there are none |
| LancamentoRepository.AcrescentarCorrespondente | src/main/java/br/com/felipegabriel/minhasfinancas/model/repository/LancamentoRepository.java:15 | appending a matching row of value v raises a present sum by v and turns an absent sum into v |
| LancamentoRepository.IgnoraOutrasLinhas | src/main/java/br/com/felipegabriel/minhasfinancas/model/repository/LancamentoRepository.java:16 | a row of another user or of the other type, wherever it stands, does not change the result |
| LancamentoRepository.SaldoIndependeDaOrdem | src/main/java/br/com/felipegabriel/minhasfinancas/model/repository/LancamentoRepository.java:14-16 | two row sequences with the same rows in any order give the same result |

## Left out

- `buscar` and `obterPorId` of the entry service are not modelled. They are query by example through Spring's `Example` and a pass-through `findById`, and their tests assert only that the repository's answer is passed through.
- `obterSaldoPorUsuario`, the balance as income minus expense, is not part of this model. Its body is not modelled. Only the per-type sum it is built on is modelled.
- HTTP routing in `UsuarioResource` and the mapping of errors to 201, 400 and 404 responses are not modelled. They are framework glue.
- Password hashing and storage format are not modelled. Passwords are opaque strings compared by equality.
- The `@Transactional` guarantee and concurrent registrations with the same email are storage-layer properties and are not modelled. Each operation is one atomic step.
- Null names, emails and passwords of a user are not represented, because `Usuario`'s text fields are plain strings. The user the test attaches to an entry (`new Usuario()` with id 1) is written with empty strings.
- UsuarioService.UsuarioServiceImpl.SalvarUsuario: the storage always assigns a new id, whatever id the argument carries. JPA's merge of an argument that already has an id is not modelled. The registration endpoint always builds the user without an id.
- LancamentoService.LancamentoServiceImpl.Salvar: setting the status to PENDENTE before the save is assumed. The service's test neither requires nor rules it out, because the PENDENTE it checks comes from the stubbed repository's answer.
- LancamentoService.LancamentoServiceImpl.Salvar: an entry that carries an id with no stored row is stored under that id (an upsert), as in `Atualizar`. JPA's handling of a detached entity whose row is missing is not modelled.
- LancamentoService.LancamentoServiceImpl.Atualizar: an id with no stored row is stored under that id (an upsert). JPA's handling of a detached entity whose row is missing is not modelled.
- LancamentoService.Validar: the description, month, year, user and value rules are known only through the facts in `ConformeTestes`. The month range, the year formula, negative values, blank descriptions and a user without id are not modelled, because the tests do not pin them down.
- BigDecimal scale, precision and formatting are not modelled. Amounts are exact `real`s.
- Ids are unbounded integers. The 64-bit range of `Long` is not modelled.
