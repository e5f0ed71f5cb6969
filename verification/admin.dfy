/**
 * The admin gate (src/pages/Admin.jsx): a password form whose check runs one
 * second after submission, a flag `admin_authenticated` kept in storage so that
 * a later visit is let in, and a logout that clears it.
 */
module AdminPage {
  import opened Wrappers
  import opened LocalStorage

  const AdminPassword: string := "inara2025"
  const AuthKey: string := "admin_authenticated"

  /** The mount check: the stored flag is exactly `'true'`. */
  predicate StoredAuth(items: map<string, Value>) {
    AuthKey in items && items[AuthKey] == Text("true")
  }

  /** The storage after the delayed check of `attempt`: the flag is set on the right password. */
  function AfterCheck(items: map<string, Value>, attempt: string): (after: map<string, Value>)
    ensures StoredAuth(after) <==> attempt == AdminPassword || StoredAuth(items)
    ensures attempt != AdminPassword ==> after == items
    ensures forall k :: k != AuthKey ==> (k in after <==> k in items)
    ensures forall k :: k != AuthKey && k in items ==> after[k] == items[k]
  {
    if attempt == AdminPassword then items[AuthKey := Text("true")] else items
  }

  /** The storage after logout: no flag, so the next mount shows the login form. */
  function AfterLogout(items: map<string, Value>): (after: map<string, Value>)
    ensures !StoredAuth(after) && AuthKey !in after
    ensures forall k :: k != AuthKey ==> (k in after <==> k in items)
    ensures forall k :: k != AuthKey && k in items ==> after[k] == items[k]
  {
    items - {AuthKey}
  }

  /** Logging out and back in with the right password sets the same storage as logging in. */
  lemma LogoutThenLogin(items: map<string, Value>)
    ensures AfterCheck(AfterLogout(items), AdminPassword) == AfterCheck(items, AdminPassword)
  {
    assert forall k :: k in AfterCheck(AfterLogout(items), AdminPassword) <==> k in AfterCheck(items, AdminPassword);
  }

  class Admin {
    var isAuthenticated: bool
    /** The password field. */
    var password: string
    var isLoading: bool
    /** The password the scheduled check will compare, captured at submission. */
    var pending: Option<string>
    const store: Store

    /** A check is scheduled exactly while the form shows "Authenticating...". */
    predicate Valid()
      reads this
    {
      isLoading <==> pending.Some?
    }

    /** First render plus the mount effect. */
    constructor (store: Store)
      ensures Valid() && this.store == store
      ensures isAuthenticated <==> StoredAuth(store.items)
      ensures password == "" && !isLoading
    {
      this.store := store;
      password := "";
      isLoading := false;
      pending := None;
      isAuthenticated := StoredAuth(store.items);
    }

    /** Typing in the password field. */
    method SetPassword(value: string)
      modifies this
      ensures password == value
      ensures isAuthenticated == old(isAuthenticated) && isLoading == old(isLoading) && pending == old(pending)
    {
      password := value;
    }

    /**
     * Submitting the form schedules the check. The form is shown only when not
     * authenticated, the button is disabled while loading, and the field is
     * `required`.
     */
    method HandleLogin()
      requires Valid() && !isAuthenticated && !isLoading && password != ""
      modifies this
      ensures Valid() && isLoading && pending == Some(old(password))
      ensures isAuthenticated == old(isAuthenticated) && password == old(password)
    {
      isLoading := true;
      pending := Some(password);
    }

    /** The one-second timer fires: compare, set the flag on success, stop loading either way. */
    method CheckFires()
      requires Valid() && pending.Some?
      modifies this, store
      ensures Valid() && !isLoading
      ensures isAuthenticated <==> old(isAuthenticated) || old(pending.value) == AdminPassword
      ensures store.items == AfterCheck(old(store.items), old(pending.value))
      ensures password == old(password)
    {
      if pending.value == AdminPassword {
        isAuthenticated := true;
        store.SetItem(AuthKey, Text("true"));
      }
      isLoading := false;
      pending := None;
    }

    method HandleLogout()
      requires isAuthenticated
      modifies this, store
      ensures !isAuthenticated
      ensures store.items == AfterLogout(old(store.items))
      ensures password == old(password) && isLoading == old(isLoading) && pending == old(pending)
    {
      isAuthenticated := false;
      store.RemoveItem(AuthKey);
    }
  }

  /** Logging in with the right password lets the next visit straight in; logging out does not. */
  method LoginLogoutReload(store: Store) returns (afterLogin: Admin, afterLogout: Admin)
    requires !StoredAuth(store.items)
    modifies store
    ensures afterLogin.isAuthenticated && !afterLogout.isAuthenticated
  {
    var page := new Admin(store);
    page.SetPassword(AdminPassword);
    page.HandleLogin();
    page.CheckFires();
    afterLogin := new Admin(store);
    page.HandleLogout();
    afterLogout := new Admin(store);
  }
}
