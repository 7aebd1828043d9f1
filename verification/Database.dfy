/** bind_user_instance as it runs: table by table inside one transaction, rolled back
    as a whole when a constraint stops it (src/services/mapping.py). */
module MappingDatabase {
  import opened PyText
  import opened MappingStore

  datatype BindResult = Bound(info: InstanceInfo) | UnsupportedProvider | IntegrityError

  class Database {
    var instances: map<string, InstanceInfo>
    var users: map<string, UserRow>
    var identities: map<(string, string), string>
    var assignments: map<string, string>
    var version: int

    ghost function Tables(): Store
      reads this
    {
      Store(instances, users, identities, assignments)
    }

    /** The state migration 002 leaves: the version row exists. */
    constructor ()
      ensures Tables() == EMPTY_STORE && version == 1
    {
      instances, users, identities, assignments, version := map[], map[], map[], map[], 1;
    }

    method Rollback(before: Store)
      modifies this`instances, this`users, this`identities, this`assignments
      ensures Tables() == before
    {
      instances := before.instances;
      users := before.users;
      identities := before.identities;
      assignments := before.assignments;
    }

    method UpsertUserRow(b: Binding) returns (ok: bool)
      modifies this`users
      ensures ok <==> UpsertUser(old(Tables()), b).Some?
      ensures ok ==> Tables() == UpsertUser(old(Tables()), b).value
    {
      var user := b.User();
      if user !in users {
        if exists u :: u in users && users[u].externalId == Some(b.External()) {
          return false;
        }
        users := users[user := UserRow(Some(b.External()), b.role)];
      } else if users[user].role.None? && b.role.Some? {
        users := users[user := users[user].(role := b.role)];
      }
      ok := true;
    }

    method UpsertIdentityRow(b: Binding) returns (ok: bool)
      modifies this`identities
      ensures ok <==> UpsertIdentity(old(Tables()), b).Some?
      ensures ok ==> Tables() == UpsertIdentity(old(Tables()), b).value
    {
      if !exists k :: k in identities && k.0 == b.provider && identities[k] == b.User() {
        if (b.provider, b.providerUserId) in identities {
          return false;
        }
        identities := identities[(b.provider, b.providerUserId) := b.User()];
      }
      ok := true;
    }

    /** Inserts the user's row or moves it to the instance. */
    method UpsertAssignmentRow(b: Binding) returns (ok: bool)
      requires Constraints(Tables())
      modifies this`assignments
      ensures ok <==> UpsertAssignment(old(Tables()), b).Some?
      ensures ok ==> Tables() == UpsertAssignment(old(Tables()), b).value
    {
      var user := b.User();
      if b.uuid in assignments {
        return assignments[b.uuid] == user;
      }
      if exists i :: i in assignments && assignments[i] == user {
        var current :| current in assignments && assignments[current] == user;
        OnlyRowOf(assignments, user, current);
        assignments := assignments - {current};
      } else {
        NoRowOf(assignments, user);
      }
      assignments := assignments[b.uuid := user];
      ok := true;
    }

    /** Steps 1 to 4 of the transaction. */
    method UpsertRows(b: Binding) returns (ok: bool)
      requires Constraints(Tables())
      modifies this`instances, this`users, this`identities, this`assignments
      ensures ok <==> Bind(old(Tables()), b).Some?
      ensures ok ==> Tables() == Bind(old(Tables()), b).value
    {
      StepsKeepConstraints(Tables(), b);
      instances := instances[b.uuid := b.info];
      ok := UpsertUserRow(b);
      if ok {
        ok := UpsertIdentityRow(b);
      }
      if ok {
        ok := UpsertAssignmentRow(b);
      }
    }

    /** The transaction: all rows and the version, or nothing. */
    method Transact(b: Binding) returns (committed: bool)
      requires Constraints(Tables())
      modifies this
      ensures Constraints(Tables())
      ensures committed <==> Bind(old(Tables()), b).Some?
      ensures committed ==> Tables() == Bind(old(Tables()), b).value && version == old(version) + 1
      ensures !committed ==> Tables() == old(Tables()) && version == old(version)
    {
      var before := Store(instances, users, identities, assignments);
      BindKeepsConstraints(before, b);
      committed := UpsertRows(b);
      if committed {
        version := version + 1;
      } else {
        Rollback(before);
      }
    }

    method BindUserInstance(provider: string, providerUserId: string, uuid: string, info: InstanceInfo,
                            externalId: Option<string>, role: Option<string>) returns (r: BindResult)
      requires Constraints(Tables())
      modifies this
      ensures Constraints(Tables())
      ensures r.UnsupportedProvider? <==> ValidateProvider(provider).None?
      ensures !r.Bound? ==> Tables() == old(Tables()) && version == old(version)
      ensures r.Bound? ==> r.info == info && version == old(version) + 1
      ensures !r.UnsupportedProvider? ==>
                var b := Binding(ValidateProvider(provider).value, providerUserId, uuid, info, externalId, role);
                && (r.Bound? <==> Bind(old(Tables()), b).Some?)
                && (r.Bound? ==> Tables() == Bind(old(Tables()), b).value)
    {
      var normalized := ValidateProvider(provider);
      if normalized.None? {
        return UnsupportedProvider;
      }
      var committed := Transact(Binding(normalized.value, providerUserId, uuid, info, externalId, role));
      r := if committed then Bound(info) else IntegrityError;
    }
  }

  lemma OnlyRowOf(assignments: map<string, string>, user: string, current: string)
    requires forall i, j | i in assignments && j in assignments && assignments[i] == assignments[j] :: i == j
    requires current in assignments && assignments[current] == user
    ensures assignments - {current} == map i | i in assignments && assignments[i] != user :: assignments[i]
  {
  }

  lemma NoRowOf(assignments: map<string, string>, user: string)
    requires !exists i :: i in assignments && assignments[i] == user
    ensures assignments == map i | i in assignments && assignments[i] != user :: assignments[i]
  {
  }

  lemma StepsKeepConstraints(s: Store, b: Binding)
    requires Constraints(s)
    ensures var s1 := UpsertUser(UpsertInstance(s, b), b);
            && (s1.Some? && UpsertIdentity(s1.value, b).Some? ==> Constraints(UpsertIdentity(s1.value, b).value))
            && (Bind(s, b).Some? ==> Constraints(Bind(s, b).value))
  {
    UpsertInstanceKeeps(s, b);
    UpsertUserKeeps(UpsertInstance(s, b), b);
    UpsertFrames(UpsertInstance(s, b), b);
    var s1 := UpsertUser(UpsertInstance(s, b), b);
    if s1.Some? {
      UpsertIdentityKeeps(s1.value, b);
    }
    BindKeepsConstraints(s, b);
  }
}
