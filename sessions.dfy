/**
 * The `useSession` command of cypress/support/commands.ts, as the ordered list of
 * effects it issues. Its `switch` on the session name has no `break`, so every case
 * after the matching label runs as well; the model keeps that fallthrough.
 */
module Sessions {

  /** The identity `faker` generates at the start of every `useSession` call. */
  datatype Generated = Generated(firstName: string, lastName: string, username: string, password: string)

  /** The payload `AuthAPI.createUser` receives. */
  datatype NewUser = NewUser(firstName: string, lastName: string, username: string,
                             password: string, confirmPassword: string)

  datatype Credentials = Credentials(username: string, password: string)

  /**
   * `Session(name, signup, login)`: a `cy.session(name, setup, ...)` call whose setup
   * registers `signup` and signs in with `login` (caching and validation are opaque);
   * `SetEnv(key, value)`: `Cypress.env(key, value)`; `Log(message)`: `cy.log(message)`.
   */
  datatype Effect =
    | Session(name: string, signup: NewUser, login: Credentials)
    | SetEnv(key: string, value: Credentials)
    | Log(message: string)

  const InvalidSession: string := "Invalid session specified"

  /** The account every session setup creates from the generated identity. */
  function Signup(g: Generated): (u: NewUser)
    ensures u.username == g.username && u.password == g.password
    ensures u.confirmPassword == u.password
    ensures u.firstName == g.firstName && u.lastName == g.lastName
  {
    NewUser(g.firstName, g.lastName, g.username, g.password, g.password)
  }

  /** The credentials the setup signs in with and `freeUser` stores. */
  function Login(g: Generated): Credentials
  {
    Credentials(g.username, g.password)
  }

  /** The bodies of the `switch`, in source order: `'free'`, `'premium'`, `default`. */
  function Cases(g: Generated): seq<seq<Effect>>
  {
    [ [Session("free", Signup(g), Login(g)), SetEnv("freeUser", Login(g))],
      [Session("premium", Signup(g), Login(g))],
      [Log(InvalidSession)] ]
  }

  /** Index of the case the `switch` jumps to; unmatched names go to `default`. */
  function Entry(name: string): (i: nat)
    ensures i < 3
    ensures i == 0 <==> name == "free"
    ensures i == 1 <==> name == "premium"
  {
    if name == "free" then 0 else if name == "premium" then 1 else 2
  }

  /** Switch semantics without `break`: the bodies from the entry case to the end, in order. */
  function FallThrough(bodies: seq<seq<Effect>>, from: nat): (r: seq<Effect>)
    requires from <= |bodies|
    ensures from < |bodies| ==> |bodies[from]| <= |r| && r[..|bodies[from]|] == bodies[from]
    ensures forall e :: e in r <==> exists j :: from <= j < |bodies| && e in bodies[j]
    decreases |bodies| - from
  {
    if from == |bodies| then [] else bodies[from] + FallThrough(bodies, from + 1)
  }

  /** The effects of `cy.useSession(name)`, given what `faker` generated. */
  function UseSession(name: string, g: Generated): (effects: seq<Effect>)
    ensures name == "free" ==>
      effects == [Session("free", Signup(g), Login(g)), SetEnv("freeUser", Login(g)),
                  Session("premium", Signup(g), Login(g)), Log(InvalidSession)]
    ensures name == "premium" ==>
      effects == [Session("premium", Signup(g), Login(g)), Log(InvalidSession)]
    ensures name != "free" && name != "premium" ==> effects == [Log(InvalidSession)]
  {
    var bodies := Cases(g);
    assert FallThrough(bodies, 3) == [];
    assert FallThrough(bodies, 2) == bodies[2];
    assert FallThrough(bodies, 1) == bodies[1] + bodies[2];
    FallThrough(bodies, Entry(name))
  }

  /** How many `cy.session` calls an effect list makes. */
  function SessionCount(effects: seq<Effect>): nat
  {
    if effects == [] then 0
    else (if effects[0].Session? then 1 else 0) + SessionCount(effects[1..])
  }

  /** Only `'free'` writes the environment; an unrecognised name creates no session. */
  lemma EnvWriteOnlyForFree(name: string, g: Generated)
    ensures (exists i :: 0 <= i < |UseSession(name, g)| && UseSession(name, g)[i].SetEnv?) <==> name == "free"
    ensures name != "free" && name != "premium" ==>
      forall e :: e in UseSession(name, g) ==> !e.Session? && !e.SetEnv?
  {
    if name == "free" {
      assert UseSession(name, g)[1].SetEnv?;
    }
  }

  /** The fallthrough makes `'free'` open two sessions, `'premium'` one, any other name none. */
  lemma SessionsOpened(name: string, g: Generated)
    ensures SessionCount(UseSession(name, g)) ==
      if name == "free" then 2 else if name == "premium" then 1 else 0
  {
    var effects := UseSession(name, g);
    if name == "free" {
      assert SessionCount(effects[3..]) == 0 by { assert effects[3..][1..] == []; }
      assert effects[2..][1..] == effects[3..];
      assert effects[1..][1..] == effects[2..];
    } else if name == "premium" {
      assert SessionCount(effects[1..]) == 0 by { assert effects[1..][1..] == []; }
    } else {
      assert effects[1..] == [];
    }
  }

  /**
   * The `freeUser` entry holds the credentials that the free session's setup passes to
   * `createUser` and signs in with (whether that setup runs is up to `cy.session`).
   */
  lemma FreeUserMatchesSignup(name: string, g: Generated, i: nat)
    requires i < |UseSession(name, g)| && UseSession(name, g)[i].SetEnv?
    ensures var c := UseSession(name, g)[i].value;
      UseSession(name, g)[i].key == "freeUser" &&
      UseSession(name, g)[0].Session? && UseSession(name, g)[0].name == "free" &&
      c.username == UseSession(name, g)[0].signup.username &&
      c.password == UseSession(name, g)[0].signup.password &&
      c == UseSession(name, g)[0].login
  {
  }

  /** `useSession` as evidently intended: only the matching case runs. */
  function UseSessionIntended(name: string, g: Generated): (effects: seq<Effect>)
    ensures name == "free" ==>
      effects == [Session("free", Signup(g), Login(g)), SetEnv("freeUser", Login(g))]
    ensures name == "premium" ==> effects == [Session("premium", Signup(g), Login(g))]
    ensures name != "free" && name != "premium" ==> effects == [Log(InvalidSession)]
  {
    Cases(g)[Entry(name)]
  }

  /** In the intended dispatch every session opened is the one named, and a recognised name logs nothing. */
  lemma IntendedRunsOnlyOwnCase(name: string, g: Generated)
    ensures forall e :: e in UseSessionIntended(name, g) && e.Session? ==> e.name == name
    ensures (name == "free" || name == "premium") <==> Log(InvalidSession) !in UseSessionIntended(name, g)
    ensures SessionCount(UseSessionIntended(name, g)) == if name == "free" || name == "premium" then 1 else 0
  {
    var effects := UseSessionIntended(name, g);
    if name == "free" {
      assert SessionCount(effects[1..]) == 0 by { assert effects[1..][1..] == []; }
    } else if name == "premium" {
      assert effects[1..] == [];
    } else {
      assert effects[1..] == [];
    }
  }

  /** The code as written runs the intended case and then every later case. */
  lemma AsWrittenExtendsIntended(name: string, g: Generated)
    ensures UseSession(name, g) == UseSessionIntended(name, g) + FallThrough(Cases(g), Entry(name) + 1)
  {
  }

  /** Counterexample: `'free'` as written also opens the premium session and logs an invalid name. */
  lemma FreeFallsThrough(g: Generated)
    ensures Session("premium", Signup(g), Login(g)) in UseSession("free", g)
    ensures Log(InvalidSession) in UseSession("free", g)
    ensures UseSession("free", g) != UseSessionIntended("free", g)
  {
  }
}
