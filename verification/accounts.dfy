/**
 The demo login system (script.js:824-1066 and the wrappers at script.js:1108-1149).
 Browser storage is an in-memory `Store`: the `nurseryUsers` mapping from email to
 user, the `progress_<email>` records, and the `currentUser` session marker.
 Passwords are compared as plain text, as the script does.
 */
module Accounts {
  import opened Wrappers

  datatype Role = Parent | Teacher

  /** A registered or demo account, or the ephemeral guest (which has no email and no
      password and is never stored). */
  datatype User =
    | Account(name: string, email: string, password: string, childName: string,
              childAge: int, childLevel: string, role: Role)
    | GuestUser(name: string, childName: string, childAge: int, childLevel: string)

  /** A `progress_<email>` record. */
  datatype Progress = Progress(storiesRead: int, gamesPlayed: int, totalScore: int)

  /** `userProgress`, the record used when none is stored. */
  const EmptyProgress: Progress := Progress(0, 0, 0)

  /** Browser storage: `nurseryUsers`, the progress records keyed by email, and the
      `currentUser` marker read back on page load. */
  datatype Store = Store(users: map<string, User>, progress: map<string, Progress>, savedUser: Option<User>)

  /** The page's `currentUser` together with storage. */
  datatype Session = Session(current: Option<User>, store: Store)

  /** The outcome of a login or registration attempt. */
  datatype Attempt = Attempt(session: Session, ok: bool)

  const EmptyStore: Store := Store(map[], map[], None)

  /** The two hardcoded demo accounts. */
  const DemoUsers: map<string, User> := map[
    "parent@demo.com" := Account("Emma Johnson", "parent@demo.com", "demo123", "Lily Johnson", 3, "preschool", Parent),
    "teacher@demo.com" := Account("Ms. Sarah Wilson", "teacher@demo.com", "demo123", "Class Monitor", 4, "prek", Teacher)
  ]

  /** `user.password === password`: a guest has no password and never matches. */
  predicate PasswordMatches(u: User, password: string) {
    u.Account? && u.password == password
  }

  predicate DemoMatch(email: string, password: string) {
    email in DemoUsers && PasswordMatches(DemoUsers[email], password)
  }

  predicate StoredMatch(store: Store, email: string, password: string) {
    email in store.users && PasswordMatches(store.users[email], password)
  }

  /** The session-marker wrapper installed on page load: after the call, a non-null
      `currentUser` is written to storage. */
  function Remember(s: Session): (s': Session)
    ensures s'.current == s.current
    ensures s'.store.users == s.store.users && s'.store.progress == s.store.progress
    ensures s'.store.savedUser == if s.current.Some? then s.current else s.store.savedUser
  {
    if s.current.Some? then s.(store := s.store.(savedUser := s.current)) else s
  }

  /** `loginUser` as called through its page-load wrapper: demo accounts first, then
      stored accounts. A failure reports one generic error and keeps the page's user,
      but the wrapper still writes that user, a guest included, to the marker. */
  function Login(s: Session, email: string, password: string): (a: Attempt)
    ensures a.ok <==> DemoMatch(email, password) || StoredMatch(s.store, email, password)
    ensures DemoMatch(email, password) ==> a.session.current == Some(DemoUsers[email])
    ensures (!DemoMatch(email, password) && StoredMatch(s.store, email, password))
      ==> a.session.current == Some(s.store.users[email])
    ensures !a.ok ==> a.session.current == s.current
    ensures a.ok ==> a.session.store.savedUser == a.session.current
    ensures a.session.store.savedUser ==
      if a.session.current.Some? then a.session.current else s.store.savedUser
    ensures a.session.store.users == s.store.users
    ensures a.session.store.progress == s.store.progress
  {
    if DemoMatch(email, password) then
      Attempt(Remember(s.(current := Some(DemoUsers[email]))), true)
    else if StoredMatch(s.store, email, password) then
      Attempt(Remember(s.(current := Some(s.store.users[email]))), true)
    else
      Attempt(Remember(s), false)
  }

  /** The record the registration form builds. `childName` is taken from the form's
      `name` field, as the script does. */
  function NewAccount(name: string, email: string, password: string, age: int, level: string): (u: User)
    ensures u.Account? && u.role == Parent
    ensures u.name == name && u.childName == name
    ensures u.email == email && u.password == password
    ensures u.childAge == age && u.childLevel == level
  {
    Account(name, email, password, name, age, level, Parent)
  }

  /** `registerUser` as called through its page-load wrapper: refuses an email
      already stored, otherwise stores the account under its email and logs it in.
      Demo emails are not checked. Either way a non-null page user is written to the
      marker. */
  function Register(s: Session, name: string, email: string, password: string, age: int, level: string): (a: Attempt)
    ensures a.ok <==> email !in s.store.users
    ensures !a.ok ==> a.session.store.users == s.store.users && a.session.current == s.current
    ensures a.ok ==> a.session.store.users == s.store.users[email := NewAccount(name, email, password, age, level)]
    ensures a.ok ==> a.session.store.users.Keys == s.store.users.Keys + {email}
    ensures a.ok ==> a.session.current == Some(NewAccount(name, email, password, age, level))
    ensures a.ok ==> a.session.store.savedUser == a.session.current
    ensures a.session.store.savedUser ==
      if a.session.current.Some? then a.session.current else s.store.savedUser
    ensures a.session.store.progress == s.store.progress
  {
    if email in s.store.users then Attempt(Remember(s), false)
    else
      var u := NewAccount(name, email, password, age, level);
      Attempt(Remember(Session(Some(u), s.store.(users := s.store.users[email := u]))), true)
  }

  /** `setGuestLevel`: an ephemeral guest; storage, including the session marker, is
      left alone. */
  function SetGuest(s: Session, level: string): (s': Session)
    ensures s'.store == s.store
    ensures s'.current.Some? && s'.current.value.GuestUser?
    ensures s'.current.value.childLevel == level
    ensures s'.current.value.childAge == (if level == "toddler" then 2 else if level == "preschool" then 3 else 4)
    ensures s'.current.value.name == "Guest User" && s'.current.value.childName == "Little Star"
    ensures 2 <= s'.current.value.childAge <= 4
  {
    Session(Some(GuestUser("Guest User", "Little Star",
      if level == "toddler" then 2 else if level == "preschool" then 3 else 4, level)), s.store)
  }

  /** `logout` as the logout button holds it: the listener is registered with the
      original function before the page-load wrapper rebinds the name, so only the
      page's user is cleared and all of storage, the marker included, stays. */
  function Logout(s: Session): (s': Session)
    ensures s'.current.None?
    ensures s'.store == s.store
  {
    Session(None, s.store)
  }

  /** The logout the page-load wrapper intends: it also removes the stored marker,
      while accounts and progress stay. */
  function LogoutIntended(s: Session): (s': Session)
    ensures s'.current.None? && s'.store.savedUser.None?
    ensures s'.store.users == s.store.users && s'.store.progress == s.store.progress
  {
    Session(None, s.store.(savedUser := None))
  }

  /** Page load: the stored marker, if any, becomes the current user. */
  function Reload(store: Store): (s: Session)
    ensures s.store == store && s.current == store.savedUser
  {
    Session(store.savedUser, store)
  }

  /** Registering a fresh email and logging in with the same password yields the new
      account, unless a demo account has that email and password. */
  lemma RegisterThenLogin(s: Session, name: string, email: string, password: string, age: int, level: string)
    requires email !in s.store.users && !DemoMatch(email, password)
    ensures var r := Register(s, name, email, password, age, level);
      var l := Login(r.session, email, password);
      && r.ok && l.ok
      && l.session.current == Some(NewAccount(name, email, password, age, level))
  {
  }

  /** A second registration of a stored email fails and keeps the first record. */
  lemma DuplicateRegistration(s: Session, name: string, email: string, password: string, age: int, level: string,
                              name2: string, password2: string, age2: int, level2: string)
    requires email !in s.store.users
    ensures var r1 := Register(s, name, email, password, age, level);
      var r2 := Register(r1.session, name2, email, password2, age2, level2);
      && r1.ok && !r2.ok
      && r2.session.store.users[email] == NewAccount(name, email, password, age, level)
      && r2.session.current == r1.session.current
  {
  }

  /** Because registration does not consult the demo table, a stored account with a
      demo email and the demo password can never log in: the demo account wins. */
  lemma DemoShadowsRegistration()
    ensures var r := Register(Reload(EmptyStore), "Ann", "parent@demo.com", "demo123", 3, "toddler");
      var l := Login(r.session, "parent@demo.com", "demo123");
      && r.ok && l.ok
      && l.session.current.value.name == "Emma Johnson"
  {
  }

  /** Whatever the outcome, a login or registration never removes a stored account. */
  lemma AccountsOnlyGrow(s: Session, email: string, password: string, name: string, age: int, level: string)
    ensures s.store.users.Keys <= Register(s, name, email, password, age, level).session.store.users.Keys
    ensures Login(s, email, password).session.store.users == s.store.users
  {
  }

  /** A login survives a page reload. As the button is bound, so does a logout: the
      reload brings back whoever was remembered before it. */
  lemma ReloadRestoresLogin(s: Session, email: string, password: string)
    ensures var l := Login(s, email, password);
      l.ok ==> Reload(l.session.store).current == l.session.current
    ensures Reload(Logout(s).store).current == s.store.savedUser
  {
  }

  /** Concretely: log in as the demo parent, log out, reload, and the parent is
      logged in again. */
  lemma LogoutUndoneByReload()
    ensures var l := Login(Reload(EmptyStore), "parent@demo.com", "demo123");
      && l.ok
      && Reload(Logout(l.session).store).current == Some(DemoUsers["parent@demo.com"])
  {
  }

  /** With the intended logout, a reload after logging out finds nobody, whatever
      happened before. */
  lemma IntendedLogoutForgets(s: Session, email: string, password: string)
    ensures Reload(LogoutIntended(s).store).current.None?
    ensures Reload(LogoutIntended(Login(s, email, password).session).store).current.None?
  {
  }

  /** A failed login while a guest is current writes the guest to the marker, so the
      next page load restores the guest. */
  lemma FailedLoginRemembersGuest(s: Session, level: string, email: string, password: string)
    requires !DemoMatch(email, password) && !StoredMatch(s.store, email, password)
    ensures var g := SetGuest(s, level);
      var l := Login(g, email, password);
      && !l.ok
      && Reload(l.session.store).current == g.current
      && Reload(l.session.store).current.value.GuestUser?
  {
  }

  /** Choosing a guest level does not write the marker, so a reload right after
      switching to guest brings back whoever was remembered before. */
  lemma GuestNotRemembered(s: Session, level: string)
    ensures Reload(SetGuest(s, level).store).current == s.store.savedUser
  {
  }
}
