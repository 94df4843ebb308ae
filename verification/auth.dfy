/**
 * The authentication store (src/stores/authStore.ts). Besides its three
 * fields, the store writes the token under `access_token` in browser
 * storage, which is where the request interceptor of the HTTP client reads
 * it from. Browser storage is the map `storage`.
 */
module Auth {
  import opened Types
  import opened Api

  /** The store's `token` field and the stored `access_token` agree. */
  predicate InStep(token: Option<string>, storage: map<string, string>) {
    && (token.Some? <==> TokenKey in storage)
    && (token.Some? ==> storage[TokenKey] == token.value)
  }

  class AuthStore {
    var user: Option<User>
    var token: Option<string>
    var profileUid: Option<string>
    /** Browser storage, shared with the HTTP client. */
    var storage: map<string, string>

    /** A fresh store: signed out, whatever storage already holds. */
    constructor (storage: map<string, string>)
      ensures user.None? && token.None? && profileUid.None?
      ensures this.storage == storage
    {
      user := None;
      token := None;
      profileUid := None;
      this.storage := storage;
    }

    /**
     * `setAuth`: stores the token under `access_token`, leaving the rest of
     * storage alone, and sets the three fields.
     */
    method SetAuth(u: User, t: string, p: string)
      modifies this
      ensures storage == old(storage)[TokenKey := t]
      ensures user == Some(u) && token == Some(t) && profileUid == Some(p)
      ensures InStep(token, storage)
    {
      storage := storage[TokenKey := t];
      user := Some(u);
      token := Some(t);
      profileUid := Some(p);
    }

    /**
     * `clearAuth`: removes `access_token` from storage, leaving the rest
     * alone, and clears the three fields.
     */
    method ClearAuth()
      modifies this
      ensures storage == old(storage) - {TokenKey}
      ensures user.None? && token.None? && profileUid.None?
      ensures InStep(token, storage)
    {
      storage := storage - {TokenKey};
      user := None;
      token := None;
      profileUid := None;
    }
  }

  /**
   * After `setAuth` with a non-empty token every request carries
   * `Authorization: Bearer <token>`; an empty token is falsy, so requests
   * then go out as they were built.
   */
  lemma RequestsAfterSetAuth(storage: map<string, string>, t: string, headers: Headers)
    ensures t != "" ==> Intercept(storage[TokenKey := t], headers) == headers[AuthorizationName := BearerPrefix + t]
    ensures t == "" ==> Intercept(storage[TokenKey := t], headers) == headers
  {
  }

  /** After `clearAuth` requests go out as they were built. */
  lemma RequestsAfterClearAuth(storage: map<string, string>, headers: Headers)
    ensures Intercept(storage - {TokenKey}, headers) == headers
  {
  }

  /**
   * While the store and storage agree, the interceptor attaches a header
   * exactly when the store holds a non-empty token, and it names that token.
   */
  lemma InterceptFollowsStore(token: Option<string>, storage: map<string, string>, headers: Headers)
    requires InStep(token, storage)
    requires AuthorizationName !in headers
    ensures AuthorizationName in Intercept(storage, headers) <==> token.Some? && token.value != ""
    ensures token.Some? && token.value != "" ==>
      TokenOf(Intercept(storage, headers)[AuthorizationName]) == Some(token.value)
  {
    AttachedIffStored(storage, headers);
  }
}
