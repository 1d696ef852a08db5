/**
 * The session gate of the app: an `AuthProvider` holding two in-memory flags,
 * `isReady` and `isSignedIn`, backed by one entry of the device's key-value
 * store. A mount-time effect loads the flag once; `SignInWithAdmin` and
 * `SignOut` change it. Every storage call is one atomic step.
 */
module AuthContext {
  import opened JsString

  /** The one key the gate persists under. */
  const StorageKey: string := "@trapihaus/isSignedIn"
  /** The stored value that means "signed in". */
  const SignedInSentinel: string := "1"
  /** The fixed credential pair the placeholder check accepts. */
  const AdminUsername: string := "admin"
  const AdminPassword: string := "admin"

  /** What `getItem` gives back: the stored string, `null`, or a rejection. */
  datatype ReadOutcome = Present(value: string) | Absent | Failed

  /** The outcome of reading `key` from a store holding `items`; `fails`
      stands for a storage error, which the store may raise at any read. */
  function ReadItem(items: map<string, string>, key: string, fails: bool): (r: ReadOutcome)
    ensures r.Failed? <==> fails
    ensures r.Absent? <==> !fails && key !in items
    ensures r.Present? ==> key in items && r.value == items[key]
  {
    if fails then Failed else if key in items then Present(items[key]) else Absent
  }

  /** `isSignedIn` once the load has gone through with outcome `r`, starting
      from `prior`: a successful read decides it by comparison with the
      sentinel; a failed read skips the assignment. */
  function SignedInAfterRead(prior: bool, r: ReadOutcome): (signedIn: bool)
    ensures signedIn != prior ==> !r.Failed?
    ensures !r.Failed? ==> (signedIn <==> r.Present? && r.value == "1")
  {
    match r
    case Present(s) => s == SignedInSentinel
    case Absent => false
    case Failed => prior
  }

  /** A read that succeeds signs in exactly on the sentinel: an absent key and
      every other stored string, the empty one included, sign out. */
  lemma SentinelDecides(prior: bool, items: map<string, string>)
    ensures SignedInAfterRead(prior, ReadItem(items, StorageKey, false))
        <==> StorageKey in items && items[StorageKey] == "1"
    ensures !SignedInAfterRead(prior, ReadItem(items[StorageKey := ""], StorageKey, false))
  {
  }

  /** The placeholder credential check: user name compared after `trim`,
      password compared as typed. */
  predicate CredentialsAccepted(username: string, password: string)
    ensures CredentialsAccepted(username, password) ==> password == "admin" && 5 <= |username|
    ensures username == "admin" ==> (CredentialsAccepted(username, password) <==> password == "admin")
    ensures AllWhitespace(username) ==> !CredentialsAccepted(username, password)
  {
    TrimOfPadded([], AdminUsername, []);
    assert [] + AdminUsername + [] == AdminUsername;
    Trim(username) == AdminUsername && password == AdminPassword
  }

  /** Any whitespace around "admin" is forgiven in the user name. */
  lemma AcceptsPaddedAdmin(pre: string, post: string)
    requires AllWhitespace(pre) && AllWhitespace(post)
    ensures CredentialsAccepted(pre + "admin" + post, "admin")
  {
    TrimOfPadded(pre, "admin", post);
  }

  /** Conversely, an accepted user name is "admin" framed by whitespace, and
      an accepted password is "admin" itself. */
  lemma AcceptedIsPaddedAdmin(username: string, password: string) returns (i: nat)
    requires CredentialsAccepted(username, password)
    ensures password == "admin"
    ensures i + 5 <= |username| && username[i..i + 5] == "admin"
    ensures forall k :: 0 <= k < i ==> IsJsWhitespace(username[k])
    ensures forall k :: i + 5 <= k < |username| ==> IsJsWhitespace(username[k])
  {
    i := TrimIsFramedSlice(username);
  }

  /** The password is not trimmed: any whitespace around "admin" is enough to
      be refused, whatever the user name. */
  lemma PasswordNotTrimmed(username: string, pre: string, post: string)
    requires AllWhitespace(pre) && AllWhitespace(post) && pre + post != []
    ensures !CredentialsAccepted(username, pre + "admin" + post)
  {
  }

  /** The device's key-value store. */
  class Storage {
    var items: map<string, string>

    constructor (initial: map<string, string>)
      ensures items == initial
    {
      items := initial;
    }

    /** `getItem(key)`; `fails` stands for a storage error. */
    method GetItem(key: string, fails: bool) returns (r: ReadOutcome)
      ensures r == ReadItem(items, key, fails)
    {
      r := ReadItem(items, key, fails);
    }

    /** `setItem(key, value)`: the key now maps to `value`, no other entry moves. */
    method SetItem(key: string, value: string)
      modifies this
      ensures items == old(items)[key := value]
    {
      items := items[key := value];
    }

    /** `removeItem(key)`: the key is gone, no other entry moves. */
    method RemoveItem(key: string)
      modifies this
      ensures items == old(items) - {key}
    {
      items := items - {key};
    }
  }

  /** The state `AuthProvider` owns and the two operations it exposes. */
  class AuthProvider {
    var isReady: bool
    var isSignedIn: bool
    const storage: Storage

    /** Both flags start false. */
    constructor (storage: Storage)
      ensures !isReady && !isSignedIn && this.storage == storage
    {
      isReady := false;
      isSignedIn := false;
      this.storage := storage;
    }

    /** Checks the credentials; on success sets the flag and persists the
        sentinel, on failure changes nothing. */
    method SignInWithAdmin(username: string, password: string) returns (ok: bool)
      modifies this`isSignedIn, storage
      ensures ok <==> CredentialsAccepted(username, password)
      ensures ok ==> isSignedIn && storage.items == old(storage.items)[StorageKey := SignedInSentinel]
      ensures !ok ==> isSignedIn == old(isSignedIn) && storage.items == old(storage.items)
      ensures isReady == old(isReady)
    {
      ok := Trim(username) == AdminUsername && password == AdminPassword;
      if !ok {
        return false;
      }
      isSignedIn := true;
      storage.SetItem(StorageKey, SignedInSentinel);
      return true;
    }

    /** Clears the flag and removes the persisted entry, whatever the state. */
    method SignOut()
      modifies this`isSignedIn, storage
      ensures !isSignedIn && storage.items == old(storage.items) - {StorageKey}
      ensures isReady == old(isReady)
    {
      isSignedIn := false;
      storage.RemoveItem(StorageKey);
    }
  }

  /** The provider's mount effect: one pending load of the flag, and the
      `cancelled` variable its teardown sets. */
  class InitEffect {
    const provider: AuthProvider
    var cancelled: bool
    /** Whether the pending load has run to its end. */
    var settled: bool

    /** Mounting starts the load with `cancelled` still false. */
    constructor Mount(provider: AuthProvider)
      ensures this.provider == provider && !cancelled && !settled
    {
      this.provider := provider;
      cancelled := false;
      settled := false;
    }

    /** The teardown the effect returns. */
    method Teardown()
      modifies this`cancelled
      ensures cancelled
    {
      cancelled := true;
    }

    /** The read resolves (or rejects, when `readFails`) and the load runs to
        its end. After a teardown neither flag moves; otherwise `isReady` is
        set and, on a successful read, `isSignedIn` follows the stored value. */
    method Settle(readFails: bool)
      requires !settled
      modifies this`settled, provider`isReady, provider`isSignedIn
      ensures settled && cancelled == old(cancelled)
      ensures old(cancelled) ==>
        provider.isReady == old(provider.isReady) && provider.isSignedIn == old(provider.isSignedIn)
      ensures !old(cancelled) ==>
        provider.isReady &&
        provider.isSignedIn == SignedInAfterRead(old(provider.isSignedIn),
                                                 ReadItem(provider.storage.items, StorageKey, readFails))
    {
      var stored := provider.storage.GetItem(StorageKey, readFails);
      // A rejected read skips the body of the `try` and goes to `finally`.
      if !stored.Failed? && !cancelled {
        provider.isSignedIn := stored == Present(SignedInSentinel);
      }
      if !cancelled {
        provider.isReady := true;
      }
      settled := true;
    }
  }

  /** A process start over a store holding `persisted`: the provider mounts
      and its load settles. It ends ready, signed in exactly when the read
      succeeded and found the sentinel. */
  method Boot(persisted: map<string, string>, readFails: bool) returns (ready: bool, signedIn: bool)
    ensures ready
    ensures signedIn <==> !readFails && StorageKey in persisted && persisted[StorageKey] == SignedInSentinel
  {
    var storage := new Storage(persisted);
    var provider := new AuthProvider(storage);
    var effect := new InitEffect.Mount(provider);
    effect.Settle(readFails);
    ready, signedIn := provider.isReady, provider.isSignedIn;
  }

  /** The provider unmounts before its read resolves: the load changes
      nothing, so the gate stays loading and signed out. */
  method BootTornDown(persisted: map<string, string>, readFails: bool) returns (ready: bool, signedIn: bool)
    ensures !ready && !signedIn
  {
    var storage := new Storage(persisted);
    var provider := new AuthProvider(storage);
    var effect := new InitEffect.Mount(provider);
    effect.Teardown();
    effect.Settle(readFails);
    ready, signedIn := provider.isReady, provider.isSignedIn;
  }

  /** A sign-in attempt after start-up, then a restart over the same store.
      An accepted sign-in survives the restart whenever the new read succeeds;
      a refused one leaves the restart to what was stored before. */
  method SignInThenRestart(persisted: map<string, string>, username: string, password: string, readFails: bool)
    returns (ok: bool, signedInBefore: bool, signedInAfterRestart: bool)
    ensures ok <==> CredentialsAccepted(username, password)
    ensures ok ==> signedInBefore
    ensures ok ==> (signedInAfterRestart <==> !readFails)
    ensures !ok ==> (signedInAfterRestart <==>
      !readFails && StorageKey in persisted && persisted[StorageKey] == SignedInSentinel)
  {
    var storage := new Storage(persisted);
    var provider := new AuthProvider(storage);
    var effect := new InitEffect.Mount(provider);
    effect.Settle(false);
    ok := provider.SignInWithAdmin(username, password);
    signedInBefore := provider.isSignedIn;
    var next := new AuthProvider(storage);
    var nextEffect := new InitEffect.Mount(next);
    nextEffect.Settle(readFails);
    signedInAfterRestart := next.isSignedIn;
  }

  /** Sign-in, sign-out, restart: the sign-out clears the flag and the key,
      so the restart comes up signed out whatever the read does. */
  method SignOutThenRestart(persisted: map<string, string>, username: string, password: string, readFails: bool)
    returns (ok: bool, signedInAfterSignOut: bool, keyStored: bool, signedInAfterRestart: bool)
    ensures ok <==> CredentialsAccepted(username, password)
    ensures !signedInAfterSignOut && !keyStored && !signedInAfterRestart
  {
    var storage := new Storage(persisted);
    var provider := new AuthProvider(storage);
    var effect := new InitEffect.Mount(provider);
    effect.Settle(false);
    ok := provider.SignInWithAdmin(username, password);
    provider.SignOut();
    signedInAfterSignOut := provider.isSignedIn;
    keyStored := StorageKey in storage.items;
    var next := new AuthProvider(storage);
    var nextEffect := new InitEffect.Mount(next);
    nextEffect.Settle(readFails);
    signedInAfterRestart := next.isSignedIn;
  }

  /** Signing out twice leaves the same flags and the same store as signing
      out once: every other key is kept, only the gate's key goes. */
  method SignOutTwice(persisted: map<string, string>, readFails: bool)
    returns (once: map<string, string>, twice: map<string, string>, ready: bool, signedIn: bool)
    ensures once == twice
    ensures StorageKey !in twice
    ensures forall k :: k in persisted && k != StorageKey ==> k in twice && twice[k] == persisted[k]
    ensures ready && !signedIn
  {
    var storage := new Storage(persisted);
    var provider := new AuthProvider(storage);
    var effect := new InitEffect.Mount(provider);
    effect.Settle(readFails);
    provider.SignOut();
    once := storage.items;
    provider.SignOut();
    twice := storage.items;
    ready, signedIn := provider.isReady, provider.isSignedIn;
  }
}
