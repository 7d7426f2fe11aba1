/** The browser-side session: the page's `localStorage` and the user held in the Redux
    store. */
module ClientSession {
  import opened Wrappers
  import opened JsValues

  const TokenKey := "token"

  /** The user object `setUser` receives at startup. */
  datatype SessionUser = SessionUser(id: JsValue, email: string, role: JsValue, displayName: string)

  class Client {
    var storage: map<string, string>
    var user: Option<SessionUser>

    constructor(storage: map<string, string>)
      ensures this.storage == storage
      ensures user == None
    {
      this.storage := storage;
      user := None;
    }

    /** `localStorage.getItem('token')`; `None` is `null`. The contract is this definition,
        which the thunks and the interceptor build on. */
    function Token(): (t: Option<string>)
      reads this
      ensures t.Some? <==> TokenKey in storage
      ensures t.Some? ==> t.value == storage[TokenKey]
    {
      if TokenKey in storage then Some(storage[TokenKey]) else None
    }
  }
}
