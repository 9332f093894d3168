/**
 * The login page: the trimmed name is looked up among the application users, added
 * when it is new, and kept in the browser as the session name.
 */
module Login {
  import opened Options
  import opened Js
  import opened Store

  const EnterName: string := "Введите ваше имя"

  /** The user table, the stored session name and the outcome after a submit. */
  datatype SignInStep = SignInStep(tables: Tables, session: Option<string>, outcome: Outcome)

  /** The handler after the blank check, on the trimmed name `n`: a failed lookup
      counts as "not found", and a name not found is inserted. */
  function Register(t: Tables, session: Option<string>, n: string, lookupOk: bool, insertOk: bool): (s: SignInStep)
    ensures s.tables == t || s.tables == t.InsertUser(n)
    ensures s.tables != t ==> n !in t.users
    ensures s.outcome == Done <==> (lookupOk && n in t.users) || insertOk
    ensures s.outcome == Done ==> s.session == Some(n) && n in s.tables.users
    ensures s.outcome != Done ==> s.session == session && s.tables == t && s.outcome == Failed
  {
    if lookupOk && n in t.users then SignInStep(t, Some(n), Done)
    else if !insertOk then SignInStep(t, session, Failed)
    else
      assert n in t.users ==> t.users + {n} == t.users;
      SignInStep(t.InsertUser(n), Some(n), Done)
  }

  /** `handleSubmit`. `lookupOk` says whether the lookup of the name succeeds: the
      handler reads only the lookup's `data`, so a failed lookup counts as "not found"
      and the insert follows. `insertOk` says whether that insert succeeds. */
  function SignIn(t: Tables, session: Option<string>, name: string, lookupOk: bool, insertOk: bool): (s: SignInStep)
    ensures AllSpace(name) ==> s == SignInStep(t, session, Rejected(EnterName))
    ensures s.tables == t || s.tables == t.InsertUser(Trim(name))
    ensures s.tables != t ==> Trim(name) !in t.users
    ensures s.outcome == Done <==> !AllSpace(name) && ((lookupOk && Trim(name) in t.users) || insertOk)
    ensures s.outcome == Done ==> s.session == Some(Trim(name)) && Trim(name) in s.tables.users
    ensures s.outcome != Done ==> s.session == session && s.tables == t
  {
    var n := Trim(name);
    if n == [] then SignInStep(t, session, Rejected(EnterName))
    else Register(t, session, n, lookupOk, insertOk)
  }

  /** A registered name whose lookup fails is sent to the insert, so when that insert fails
      too the sign-in fails, although the name is registered. */
  lemma SignInFailedLookup(t: Tables, session: Option<string>, name: string)
    requires !AllSpace(name) && Trim(name) in t.users
    ensures SignIn(t, session, name, false, false) == SignInStep(t, session, Failed)
    ensures SignIn(t, session, name, false, true) == SignInStep(t, Some(Trim(name)), Done)
  {
  }

  /** Signing in twice with the same name records one user: the second sign-in
      writes nothing, whatever its lookup and insert do, and it succeeds whenever
      its lookup does. */
  lemma SignInTwice(t: Tables, session: Option<string>, name: string, lookup1: bool, ok1: bool, lookup2: bool, ok2: bool)
    ensures var first := SignIn(t, session, name, lookup1, ok1);
            var second := SignIn(first.tables, first.session, name, lookup2, ok2);
            first.outcome == Done ==>
              second.tables == first.tables &&
              first.tables.users == t.users + {Trim(name)} &&
              (lookup2 ==> second.outcome == Done && second.session == first.session)
  {
  }

  class LoginPage {
    var name: string
    var session: Option<string>

    constructor (stored: Option<string>)
      ensures name == "" && session == stored
    {
      name := "";
      session := stored;
    }

    method SetName(text: string)
      modifies this
      ensures name == text && session == old(session)
    {
      name := text;
    }

    /** Look the name up, insert it when not found, then store it as the session name. */
    method Submit(db: Db, lookupOk: bool, insertOk: bool) returns (outcome: Outcome)
      modifies this, db
      ensures name == old(name)
      ensures SignInStep(db.Snapshot(), session, outcome) == SignIn(old(db.Snapshot()), old(session), name, lookupOk, insertOk)
    {
      var n := Trim(name);
      if n == [] {
        return Rejected(EnterName);
      }
      var existing := lookupOk && n in db.users;
      if !existing {
        if !insertOk {
          return Failed;
        }
        db.InsertUser(n);
      }
      session := Some(n);
      return Done;
    }
  }
}
