/** The user store of chat/server.js as pure functions over the `users`
    array: the `users.find(u => u.username === username)` lookup shared by
    `/register` and `/login`, the uniqueness of usernames that `/register`
    keeps, and the clock-to-id conversion `Date.now().toString()`. */
module UserStore {
  import opened ChatTypes

  /** Some user in `users` is called `name`. */
  predicate HasUsername(users: seq<User>, name: string) {
    exists i :: 0 <= i < |users| && users[i].username == name
  }

  /** `i` is the first position in `users` holding a user called `name`. */
  predicate FirstWithName(users: seq<User>, name: string, i: int) {
    && 0 <= i < |users|
    && users[i].username == name
    && forall j :: 0 <= j < i ==> users[j].username != name
  }

  /** No two entries of `users` share a username. */
  predicate UniqueUsernames(users: seq<User>) {
    forall i, j :: 0 <= i < j < |users| ==> users[i].username != users[j].username
  }

  /** The position `users.find` stops at: the first user called `name`,
      or None when there is none. */
  function FirstIndex(users: seq<User>, name: string): (r: Option<nat>)
    ensures r.Some? ==> FirstWithName(users, name, r.value)
    ensures r.None? <==> !HasUsername(users, name)
    decreases |users|
  {
    if |users| == 0 then None
    else
      var before := FirstIndex(users[..|users| - 1], name);
      if users[|users| - 1].username == name && before.None? then Some(|users| - 1)
      else before
  }

  /** `users.find(u => u.username === username)`: the first user called
      `name`, or None (JavaScript's `undefined`). */
  function Find(users: seq<User>, name: string): (r: Option<User>)
    ensures r.Some? <==> HasUsername(users, name)
    ensures r.Some? ==> exists i :: FirstWithName(users, name, i) && users[i] == r.value
  {
    match FirstIndex(users, name)
    case None => None
    case Some(i) => Some(users[i])
  }

  /** When usernames are unique, the user `find` returns is the only one with
      that name, wherever it sits. */
  lemma FindUnique(users: seq<User>, i: int)
    requires UniqueUsernames(users)
    requires 0 <= i < |users|
    ensures Find(users, users[i].username) == Some(users[i])
  {
    var name := users[i].username;
    var k := FirstIndex(users, name).value;
    assert users[k].username == name;
    assert !(k < i) && !(i < k);
  }

  /** Appending a user whose name is new keeps usernames unique. */
  lemma {:induction false} AppendKeepsUnique(users: seq<User>, u: User)
    requires UniqueUsernames(users)
    requires !HasUsername(users, u.username)
    ensures UniqueUsernames(users + [u])
  {
    var s := users + [u];
    forall i, j | 0 <= i < j < |s| ensures s[i].username != s[j].username {
      if j < |users| {
        assert s[i] == users[i] && s[j] == users[j];
      } else {
        assert s[i] == users[i] && s[j] == u;
      }
    }
  }

  /** After appending `u`, looking up `u`'s name finds `u` if the name was
      new, and every other lookup gives what it gave before. */
  lemma FindAfterAppend(users: seq<User>, u: User, name: string)
    ensures name == u.username && !HasUsername(users, name) ==> Find(users + [u], name) == Some(u)
    ensures name != u.username ==> Find(users + [u], name) == Find(users, name)
  {
    var s := users + [u];
    assert s[..|s| - 1] == users;
    assert s[|s| - 1] == u;
  }

  /** The decimal character of a digit. */
  function DigitChar(d: nat): char
    requires d < 10
  {
    "0123456789"[d]
  }

  /** `Date.now().toString()` for a clock reading: its decimal digits,
      with no leading zero. */
  function Decimal(n: nat): (s: string)
    ensures |s| >= 1
    ensures forall k :: 0 <= k < |s| ==> '0' <= s[k] <= '9'
    ensures n > 0 ==> s[0] != '0'
  {
    if n < 10 then [DigitChar(n)] else Decimal(n / 10) + [DigitChar(n % 10)]
  }

  /** The number a string of decimal digits stands for, read from the last
      digit back. */
  function Value(s: string): nat
    requires forall k :: 0 <= k < |s| ==> '0' <= s[k] <= '9'
    decreases |s|
  {
    if |s| == 0 then 0
    else 10 * Value(s[..|s| - 1]) + (s[|s| - 1] as int - '0' as int)
  }

  /** The id text of a clock reading stands for that reading. */
  lemma {:induction false} DecimalValue(n: nat)
    ensures Value(Decimal(n)) == n
    decreases n
  {
    if n >= 10 {
      DecimalValue(n / 10);
      var d := Decimal(n / 10);
      assert (d + [DigitChar(n % 10)])[..|d|] == d;
    }
  }

  /** Different clock readings give different ids, and equal readings the
      same one. */
  lemma DecimalInjective(m: nat, n: nat)
    ensures Decimal(m) == Decimal(n) <==> m == n
  {
    if Decimal(m) == Decimal(n) {
      DecimalValue(m);
      DecimalValue(n);
    }
  }
}
