/**
 * The application root (src/pages/Index.tsx): the session (`user`, `isAuthenticated`),
 * the active tab, and the one durable entry, the logged-in user under "postd_user".
 * Durable storage is a map from key to user record; its JSON encoding is not modelled.
 */
module Index {
  import opened Wrappers
  import AuthForm

  type User = AuthForm.User

  /** The durable storage key of the session user. */
  const SessionKey := "postd_user"

  /** The two tabs of the main screen. */
  datatype Tab = Feed | Map

  /** What the root renders: the authentication form, or the main screen on a tab. */
  datatype Screen = AuthScreen | MainScreen(tab: Tab)

  class App {
    var isAuthenticated: bool
    var user: Option<User>
    var activeTab: Tab
    var storage: map<string, User>

    /** Authenticated exactly when a user is present, exactly when storage holds that user. */
    ghost predicate Valid()
      reads this
    {
      && isAuthenticated == user.Some?
      && (SessionKey in storage <==> user.Some?)
      && (user.Some? ==> storage[SessionKey] == user.value)
    }

    /** First render: signed out, on the feed tab, over whatever storage already holds. */
    constructor (saved: map<string, User>)
      ensures !isAuthenticated && user == None && activeTab == Feed && storage == saved
    {
      isAuthenticated := false;
      user := None;
      activeTab := Feed;
      storage := saved;
    }

    /**
     * The start-up effect, run once on the first render's state: a stored user becomes the
     * session user without any further check; with nothing stored the session stays signed out.
     */
    method RestoreSession()
      requires !isAuthenticated && user == None
      modifies this
      ensures Valid()
      ensures SessionKey in storage ==> isAuthenticated && user == Some(storage[SessionKey])
      ensures SessionKey !in storage ==> !isAuthenticated && user == None
      ensures storage == old(storage) && activeTab == old(activeTab)
    {
      if SessionKey in storage {
        user := Some(storage[SessionKey]);
        isAuthenticated := true;
      }
    }

    /** `handleLogin`: the record becomes the session user and is written to storage. */
    method HandleLogin(u: User)
      modifies this
      ensures Valid()
      ensures user == Some(u) && isAuthenticated
      ensures storage == old(storage)[SessionKey := u] && activeTab == old(activeTab)
    {
      user := Some(u);
      isAuthenticated := true;
      storage := storage[SessionKey := u];
    }

    /** `handleLogout`: no user, signed out, the storage entry removed, the tab kept. */
    method HandleLogout()
      modifies this
      ensures Valid()
      ensures user == None && !isAuthenticated
      ensures storage == old(storage) - {SessionKey} && activeTab == old(activeTab)
    {
      user := None;
      isAuthenticated := false;
      storage := storage - {SessionKey};
    }

    /** The tab widget's `onValueChange`. */
    method SetActiveTab(tab: Tab)
      modifies this
      ensures activeTab == tab
      ensures user == old(user) && isAuthenticated == old(isAuthenticated) && storage == old(storage)
    {
      activeTab := tab;
    }

    /** The authentication form is rendered exactly when the session is signed out. */
    function CurrentScreen(): (s: Screen)
      reads this
      ensures s == AuthScreen <==> !isAuthenticated
      ensures s.MainScreen? ==> s.tab == activeTab
    {
      if !isAuthenticated then AuthScreen else MainScreen(activeTab)
    }
  }

  /**
   * A signup with every required field filled in, followed by a restart of the application
   * over the same storage, restores the signed-up user without a new login.
   */
  method SignupThenRestart(name: string, email: string, age: string, university: string,
                           id: int, joinedAt: string) returns (restored: Option<User>, screen: Screen)
    requires name != "" && email != "" && age != "" && university != ""
    ensures restored.Some? && screen == MainScreen(Feed)
    ensures restored.value.name == name && restored.value.email == email
    ensures restored.value.age == age && restored.value.university == university
    ensures restored.value.hostRating == 5.0 && restored.value.totalRatings == Some(0)
    ensures restored.value.id == id && restored.value.joinedAt == joinedAt
  {
    var form := new AuthForm.AuthFormState();
    form.SwitchTab("signup");
    form.InputChange(AuthForm.Name, name);
    form.InputChange(AuthForm.Email, email);
    form.InputChange(AuthForm.Age, age);
    form.InputChange(AuthForm.University, university);
    var onLogin, _ := form.HandleSubmit(id, joinedAt);

    var first := new App(map[]);
    first.RestoreSession();
    first.HandleLogin(onLogin.value);

    var second := new App(first.storage);
    second.RestoreSession();
    restored := second.user;
    screen := second.CurrentScreen();
  }
}
