/** The user store (`SistemaAutenticacao`) as the versions share it: usuarios.json
    is a dict from user name to a record, held here as a map. Each operation
    is a function from the store before to its verdict, message and the store
    after; the per-version classes apply them to their own field. */
module Users {
  import opened Common
  import opened Credentials

  const Operator: string := "operador"
  const Supervisor: string := "supervisor"
  const Administrator: string := "administrador"

  /** The protected default account. */
  const AdminName: string := "admin"

  /** A key a record may lack: records written by v0.12 carry neither
      `ultimo_login` nor `ativo`. */
  datatype Field<T> = Absent | Present(value: T)

  datatype UserRecord = UserRecord(password: PasswordHash, fullName: string, level: string,
                                   createdAt: string, lastLogin: Field<Option<string>>,
                                   active: Field<bool>)

  type Directory = map<string, UserRecord>

  /** `user_data.get('ativo', True)`: only a stored `False` makes a user inactive. */
  function IsActive(r: UserRecord): (b: bool)
    ensures !b <==> r.active == Present(false)
  {
    r.active.Present? ==> r.active.value
  }

  /** `user_data.get('ultimo_login')`. */
  function LastLoginOf(r: UserRecord): Option<string>
  {
    if r.lastLogin.Present? then r.lastLogin.value else None
  }

  /** The record `criar_usuario` writes from v0.14 on, created at `now` with
      `salt` as gensalt()'s draw: never logged in, active. */
  function NewUser(password: string, fullName: string, level: string, now: string, salt: nat): (r: UserRecord)
    ensures forall attempt :: CheckPassword(attempt, r.password) <==> attempt == password
    ensures IsActive(r) && LastLoginOf(r).None?
  {
    UserRecord(HashPassword(password, salt), fullName, level, now, Present(None), Present(true))
  }

  /** `criar_usuario_padrao` from v0.14 on; the store starts with it only when
      usuarios.json yields no user. */
  function Initial(loaded: Directory, now: string, salt: nat): (d: Directory)
    ensures loaded != map[] ==> d == loaded
    ensures loaded == map[] ==>
              d.Keys == {AdminName} && d[AdminName].level == Administrator && IsActive(d[AdminName])
              && forall attempt :: CheckPassword(attempt, d[AdminName].password) <==> attempt == "admin"
  {
    if loaded == map[] then map[AdminName := NewUser("admin", "Administrador do Sistema", Administrator, now, salt)]
    else loaded
  }

  // ------------------------------------------------------------------------
  // autenticar

  /** The credentials `autenticar` accepts from v0.14 on: a known, active
      user and the password its hash was made from. */
  function Accepts(d: Directory, name: string, password: string): (b: bool)
    ensures b ==> name in d && IsActive(d[name])
    ensures b ==> d[name].password == HashPassword(password, d[name].password.salt)
  {
    name in d && IsActive(d[name]) && CheckPassword(password, d[name].password)
  }

  /** `autenticar` at time `now`: success stamps the last login and nothing
      else; a refusal leaves the store alone. The record it returns is the
      updated one. */
  function Login(d: Directory, name: string, password: string, now: string): (r: (bool, Option<UserRecord>, Directory))
    ensures r.0 <==> Accepts(d, name, password)
    ensures r.0 ==> r.2 == d[name := d[name].(lastLogin := Present(Some(now)))] && r.1 == Some(r.2[name])
    ensures !r.0 ==> r.2 == d && r.1 == None
  {
    if Accepts(d, name, password) then
      var d' := d[name := d[name].(lastLogin := Present(Some(now)))];
      (true, Some(d'[name]), d')
    else (false, None, d)
  }

  // ------------------------------------------------------------------------
  // criar_usuario

  /** What a version of `criar_usuario` accepts and the messages it refuses with. */
  datatype CreateRules = CreateRules(levels: seq<string>, shortPassword: string, badLevel: string)

  /** `criar_usuario`: a taken name, then a password under four characters,
      then a level the version does not offer are refused in that order and
      change nothing; otherwise the new record is stored under the name. */
  function Create(d: Directory, rules: CreateRules, name: string, password: string, fullName: string,
                  level: string, now: string, salt: nat): (r: (bool, string, Directory))
    ensures r.0 <==> name !in d && |password| >= 4 && level in rules.levels
    ensures r.0 ==> r.1 == "Usuário criado com sucesso" && r.2 == d[name := NewUser(password, fullName, level, now, salt)]
    ensures !r.0 ==> r.2 == d
    ensures name in d ==> r.1 == "Usuário já existe"
    ensures name !in d && |password| < 4 ==> r.1 == rules.shortPassword
    ensures name !in d && |password| >= 4 && level !in rules.levels ==> r.1 == rules.badLevel
  {
    if name in d then (false, "Usuário já existe", d)
    else if |password| < 4 then (false, rules.shortPassword, d)
    else if level !in rules.levels then (false, rules.badLevel, d)
    else (true, "Usuário criado com sucesso", d[name := NewUser(password, fullName, level, now, salt)])
  }

  /** A user just created logs in with its password and with no other one,
      and every other user's logins are as they were. */
  lemma CreateThenLogin(d: Directory, rules: CreateRules, name: string, password: string, fullName: string,
                        level: string, now: string, salt: nat, attempt: string, other: string)
    requires Create(d, rules, name, password, fullName, level, now, salt).0
    ensures var d' := Create(d, rules, name, password, fullName, level, now, salt).2;
      (Accepts(d', name, attempt) <==> attempt == password)
      && (other != name ==> (Accepts(d', other, attempt) <==> Accepts(d, other, attempt)))
  {
  }

  // ------------------------------------------------------------------------
  // The v0.12 store: records without `ativo` or `ultimo_login`

  /** `criar_usuario_padrao` in v0.12. */
  function InitialV012(loaded: Directory, now: string, salt: nat): (d: Directory)
    ensures loaded != map[] ==> d == loaded
    ensures loaded == map[] ==>
              d.Keys == {AdminName} && d[AdminName].level == Administrator
              && forall attempt :: CheckPassword(attempt, d[AdminName].password) <==> attempt == "admin"
  {
    if loaded == map[] then
      map[AdminName := UserRecord(HashPassword("admin", salt), "Administrador", Administrator, now, Absent, Absent)]
    else loaded
  }

  /** `autenticar` in v0.12: the name is known and the password matches; an
      inactive flag is not consulted and nothing is stamped. */
  predicate AcceptsV012(d: Directory, name: string, password: string)
  {
    name in d && CheckPassword(password, d[name].password)
  }

  /** `criar_usuario` in v0.12: only a taken name is refused; the record has
      no last-login or active key. */
  function CreateV012(d: Directory, name: string, password: string, fullName: string, level: string,
                      now: string, salt: nat): (r: (bool, Directory))
    ensures r.0 <==> name !in d
    ensures !r.0 ==> r.1 == d
    ensures r.0 ==> r.1.Keys == d.Keys + {name} && AcceptsV012(r.1, name, password)
                    && r.1[name].level == level && r.1[name].fullName == fullName
                    && r.1[name].lastLogin.Absent? && r.1[name].active.Absent?
    ensures r.0 ==> forall n :: n in d ==> r.1[n] == d[n]
  {
    if name in d then (false, d)
    else (true, d[name := UserRecord(HashPassword(password, salt), fullName, level, now, Absent, Absent)])
  }

  // ------------------------------------------------------------------------
  // v0.14: atualizar_usuario and deletar_usuario

  /** The `dados` dict the user-management screen passes to `atualizar_usuario`:
      each key it may carry. */
  datatype Patch = Patch(password: Option<string>, fullName: Option<string>, level: Option<string>,
                         active: Option<bool>)

  function Apply(r: UserRecord, p: Patch, hash: Option<PasswordHash>): UserRecord
  {
    r.(password := hash.GetOr(r.password),
       fullName := p.fullName.GetOr(r.fullName),
       level := p.level.GetOr(r.level),
       active := if p.active.Some? then Present(p.active.value) else r.active)
  }

  /** `atualizar_usuario`: an unknown user fails, a non-empty password under
      four characters fails, and otherwise the record takes every key the
      patch carries, a non-empty password being hashed first and an empty one
      dropped. The level is not checked. */
  function Update(d: Directory, name: string, p: Patch, salt: nat): (r: (bool, string, Directory))
    ensures r.0 <==> name in d && !(p.password.Some? && 0 < |p.password.value| < 4)
    ensures !r.0 ==> r.2 == d
    ensures name !in d ==> r.1 == "Usuário não encontrado"
    ensures name in d && p.password.Some? && 0 < |p.password.value| < 4 ==> r.1 == "Senha muito curta"
    ensures r.0 ==> r.1 == "Usuário atualizado" && r.2.Keys == d.Keys
                    && (forall n :: n in d && n != name ==> r.2[n] == d[n])
                    && r.2[name].createdAt == d[name].createdAt && r.2[name].lastLogin == d[name].lastLogin
                    && r.2[name].fullName == p.fullName.GetOr(d[name].fullName)
                    && r.2[name].level == p.level.GetOr(d[name].level)
                    && r.2[name].active == (if p.active.Some? then Present(p.active.value) else d[name].active)
    ensures r.0 && p.password.Some? && p.password.value != "" ==>
              forall attempt :: CheckPassword(attempt, r.2[name].password) <==> attempt == p.password.value
    ensures r.0 && (p.password.None? || p.password.value == "") ==> r.2[name].password == d[name].password
  {
    if name !in d then (false, "Usuário não encontrado", d)
    else if p.password.Some? && p.password.value != "" then
      if |p.password.value| < 4 then (false, "Senha muito curta", d)
      else (true, "Usuário atualizado", d[name := Apply(d[name], p, Some(HashPassword(p.password.value, salt)))])
    else (true, "Usuário atualizado", d[name := Apply(d[name], p, None)])
  }

  /** `deletar_usuario`: the default account is refused before anything is
      looked up; any other known user is removed and nothing else changes. */
  function DeleteV014(d: Directory, name: string): (r: (bool, string, Directory))
    ensures r.0 <==> name != AdminName && name in d
    ensures !r.0 ==> r.2 == d
    ensures r.0 ==> r.2 == d - {name}
    ensures name == AdminName ==> r.1 == "Não pode deletar admin"
    ensures name != AdminName ==> r.1 == if name in d then "Usuário deletado" else "Usuário não encontrado"
  {
    if name == AdminName then (false, "Não pode deletar admin", d)
    else if name in d then (true, "Usuário deletado", d - {name})
    else (false, "Usuário não encontrado", d)
  }

  // ------------------------------------------------------------------------
  // v0.14.2: editar_usuario, redefinir_senha, excluir_usuario, listar_usuarios

  /** `editar_usuario` as written: the old record is deleted before the new
      one is built, so on a rename the lookups of its creation date and last
      login find nothing and fall back to `now` and `None`. */
  function EditAsWritten(d: Directory, oldName: string, newName: string, fullName: string, level: string,
                         active: bool, now: string): (r: (bool, string, Directory))
    ensures r.0 <==> oldName in d && (oldName == newName || newName !in d)
    ensures !r.0 ==> r.2 == d
    ensures r.0 ==> newName in r.2 && r.2 == (if oldName != newName then d - {oldName} else d)[newName := r.2[newName]]
                    && r.2[newName].password == d[oldName].password
  {
    if oldName !in d then (false, "Usuário não encontrado", d)
    else if oldName != newName && newName in d then (false, "Novo nome de usuário já existe", d)
    else
      var password := d[oldName].password;
      var d1 := if oldName != newName then d - {oldName} else d;
      var createdAt := if oldName in d1 then d1[oldName].createdAt else now;
      var lastLogin := if oldName in d1 then LastLoginOf(d1[oldName]) else None;
      (true, "Usuário editado com sucesso",
       d1[newName := UserRecord(password, fullName, level, createdAt, Present(lastLogin), Present(active))])
  }

  /** Renaming a user who has logged in, as written, forgets when it was
      created and when it last logged in. */
  lemma RenameForgetsHistory(d: Directory, oldName: string, newName: string, fullName: string, level: string,
                             active: bool, now: string)
    requires oldName in d && newName !in d && oldName != newName
    requires d[oldName].createdAt != now && LastLoginOf(d[oldName]).Some?
    ensures var r := EditAsWritten(d, oldName, newName, fullName, level, active, now).2;
      r[newName].createdAt == now != d[oldName].createdAt && LastLoginOf(r[newName]).None?
  {
  }

  /** `editar_usuario` keeping the record's history across a rename, as its
      lookups of `data_criacao` and `ultimo_login` intend: the record moves to
      the new name with the new name, level and flag, the old password,
      creation date and last login. */
  function Edit(d: Directory, oldName: string, newName: string, fullName: string, level: string,
                active: bool): (r: (bool, string, Directory))
    ensures r.0 <==> oldName in d && (oldName == newName || newName !in d)
    ensures !r.0 ==> r.2 == d
    ensures oldName !in d ==> r.1 == "Usuário não encontrado"
    ensures oldName in d && oldName != newName && newName in d ==> r.1 == "Novo nome de usuário já existe"
    ensures r.0 ==> r.1 == "Usuário editado com sucesso"
    ensures r.0 ==> r.2.Keys == d.Keys - {oldName} + {newName}
                    && (forall n :: n in d && n != oldName && n != newName ==> r.2[n] == d[n])
  {
    if oldName !in d then (false, "Usuário não encontrado", d)
    else if oldName != newName && newName in d then (false, "Novo nome de usuário já existe", d)
    else
      var prev := d[oldName];
      var d1 := if oldName != newName then d - {oldName} else d;
      (true, "Usuário editado com sucesso",
       d1[newName := UserRecord(prev.password, fullName, level, prev.createdAt,
                                Present(LastLoginOf(prev)), Present(active))])
  }

  /** An edited user keeps its password, creation date and last login, and
      carries the new name, level and flag; the login that worked before
      works under the new name. */
  lemma EditKeepsHistory(d: Directory, oldName: string, newName: string, fullName: string, level: string,
                         active: bool, attempt: string)
    requires Edit(d, oldName, newName, fullName, level, active).0
    ensures var r := Edit(d, oldName, newName, fullName, level, active).2;
      r[newName].password == d[oldName].password && r[newName].createdAt == d[oldName].createdAt
      && LastLoginOf(r[newName]) == LastLoginOf(d[oldName])
      && r[newName].fullName == fullName && r[newName].level == level && IsActive(r[newName]) == active
      && (Accepts(r, newName, attempt) <==> active && CheckPassword(attempt, d[oldName].password))
  {
  }

  /** `redefinir_senha`: an unknown user, then a password under four
      characters fail; otherwise only that user's hash is replaced. */
  function ResetPassword(d: Directory, name: string, password: string, salt: nat): (r: (bool, string, Directory))
    ensures r.0 <==> name in d && |password| >= 4
    ensures !r.0 ==> r.2 == d
    ensures name !in d ==> r.1 == "Usuário não encontrado"
    ensures name in d && |password| < 4 ==> r.1 == "Senha deve ter pelo menos 4 caracteres"
    ensures r.0 ==> r.1 == "Senha redefinida com sucesso"
                    && r.2 == d[name := d[name].(password := HashPassword(password, salt))]
  {
    if name !in d then (false, "Usuário não encontrado", d)
    else if |password| < 4 then (false, "Senha deve ter pelo menos 4 caracteres", d)
    else (true, "Senha redefinida com sucesso", d[name := d[name].(password := HashPassword(password, salt))])
  }

  /** After a reset the user logs in with the new password and with no other,
      when it is active. */
  lemma ResetThenLogin(d: Directory, name: string, password: string, salt: nat, attempt: string)
    requires ResetPassword(d, name, password, salt).0
    ensures Accepts(ResetPassword(d, name, password, salt).2, name, attempt) <==>
            IsActive(d[name]) && attempt == password
  {
  }

  /** `excluir_usuario`: unlike v0.14, an unknown name is reported before the
      default account is refused. */
  function Remove(d: Directory, name: string): (r: (bool, string, Directory))
    ensures r.0 <==> name in d && name != AdminName
    ensures !r.0 ==> r.2 == d
    ensures r.0 ==> r.2 == d - {name} && r.1 == "Usuário excluído com sucesso"
    ensures name !in d ==> r.1 == "Usuário não encontrado"
    ensures name in d && name == AdminName ==> r.1 == "Não é possível excluir o usuário administrador principal"
  {
    if name !in d then (false, "Usuário não encontrado", d)
    else if name == AdminName then (false, "Não é possível excluir o usuário administrador principal", d)
    else (true, "Usuário excluído com sucesso", d - {name})
  }

  /** One entry of `listar_usuarios`. */
  datatype Listed = Listed(name: string, fullName: string, level: string, createdAt: string,
                           lastLogin: Option<string>, active: bool)

  /** `data.get('ultimo_login', 'Nunca')` and `data.get('ativo', True)`: the
      defaults apply only where the key is missing, a stored `None` is listed
      as it is. */
  function ListEntry(name: string, r: UserRecord): (e: Listed)
    ensures e.name == name && e.fullName == r.fullName && e.level == r.level && e.createdAt == r.createdAt
    ensures e.active <==> IsActive(r)
    ensures e.lastLogin == if r.lastLogin.Absent? then Some("Nunca") else r.lastLogin.value
  {
    Listed(name, r.fullName, r.level, r.createdAt,
           if r.lastLogin.Present? then r.lastLogin.value else Some("Nunca"), IsActive(r))
  }

  /** The entries for `names`, in that order. */
  function Listing(d: Directory, names: seq<string>): (l: seq<Listed>)
    requires forall i :: 0 <= i < |names| ==> names[i] in d
    ensures |l| == |names|
    ensures forall i :: 0 <= i < |names| ==> l[i] == ListEntry(names[i], d[names[i]])
  {
    if names == [] then []
    else Listing(d, names[..|names| - 1]) + [ListEntry(names[|names| - 1], d[names[|names| - 1]])]
  }

  // ------------------------------------------------------------------------
  // Key order: a Python dict lists its keys in the order they were first inserted

  /** The names without `n`. */
  function Drop(names: seq<string>, n: string): (r: seq<string>)
    ensures forall x :: x in r <==> x in names && x != n
    ensures |r| <= |names|
  {
    if names == [] then []
    else Drop(names[..|names| - 1], n) + (if names[|names| - 1] == n then [] else [names[|names| - 1]])
  }

  /** The insertion order after assigning `d[n] = …`: a new key goes last, an
      existing one keeps its place. */
  function Insert(names: seq<string>, n: string): (r: seq<string>)
    ensures forall x :: x in r <==> x in names || x == n
  {
    if n in names then names else names + [n]
  }

  predicate Distinct(names: seq<string>)
  {
    forall i, j :: 0 <= i < j < |names| ==> names[i] != names[j]
  }

  /** The names list the keys of the directory, each once. */
  ghost predicate Ordered(d: Directory, names: seq<string>)
  {
    Distinct(names) && forall n :: n in names <==> n in d
  }

  lemma {:induction false} DropDistinct(names: seq<string>, n: string)
    requires Distinct(names)
    ensures Distinct(Drop(names, n))
  {
    if names != [] {
      var init := names[..|names| - 1];
      DropDistinct(init, n);
      var last := names[|names| - 1];
      assert last !in init;
      assert last !in Drop(init, n);
    }
  }

  /** Each store operation of v0.14.2 keeps the key order in step with the
      directory, the order it lists users in. */
  lemma OrderKept(d: Directory, names: seq<string>, n: string, m: string, r: UserRecord)
    requires Ordered(d, names)
    ensures Ordered(d[n := r], Insert(names, n))
    ensures Ordered(d - {n}, Drop(names, n))
    ensures Ordered(d - {n} + map[m := r], Insert(Drop(names, n), m))
  {
    DropDistinct(names, n);
  }
}
