/**
 * The in-memory edits that the handlers of the user router make to the
 * authenticated user's record before they save it: session revocation,
 * the all-or-nothing profile patch, and avatar upload, removal and fetch.
 */
module UserRouter {
  import opened Wrappers

  /** One element of a user's `tokens` array: a `{ token }` sub-document with its own `_id`. */
  datatype TokenEntry = TokenEntry(id: nat, token: string)

  /** A JSON scalar as it arrives in a request body. */
  datatype Value = Str(s: string) | Num(n: int) | Bool(b: bool) | Null

  type Bytes = seq<bv8>

  /** A request body: its keys in `Object.keys` order, each with its value. */
  type Body = seq<(string, Value)>

  /** The keys `PATCH /users/me` may assign. */
  const AllowedUpdates: seq<string> := ["name", "email", "password", "age"]

  /** multer's `limits.fileSize` for avatar uploads. */
  const MaxAvatarBytes: nat := 1000000

  /** The suffixes the upload filter's regular expression `\.(jpg|jpeg|png)$` matches. */
  const ImageSuffixes: set<string> := {".jpg", ".jpeg", ".png"}

  const ImageRequired: string := "Please upload an image"
  const FileTooLarge: string := "File too large"

  datatype PatchOutcome = Updated | WrongParameters

  datatype UploadOutcome = AvatarUploaded | UploadRejected(message: string)

  datatype FetchError = NoSuchUserOrAvatar

  // ---------------------------------------------------------------------
  // Session tokens
  // ---------------------------------------------------------------------

  /** How many entries of `tokens` hold the token string `t`. */
  function CountToken(tokens: seq<TokenEntry>, t: string): (n: nat)
    ensures n <= |tokens|
    ensures n == 0 <==> !IsLive(tokens, t)
  {
    if tokens == [] then 0
    else (if tokens[0].token == t then 1 else 0) + CountToken(tokens[1..], t)
  }

  /**
   * The authentication gate accepts `t` for this user only while some entry
   * of the user's list holds it.
   */
  predicate IsLive(tokens: seq<TokenEntry>, t: string) {
    exists i :: 0 <= i < |tokens| && tokens[i].token == t
  }

  /** The list `logout` keeps: `tokens.filter(e => e.token !== t)`. */
  function WithoutToken(tokens: seq<TokenEntry>, t: string): (r: seq<TokenEntry>)
    ensures |r| == |tokens| - CountToken(tokens, t)
  {
    if tokens == [] then []
    else if tokens[0].token == t then WithoutToken(tokens[1..], t)
    else [tokens[0]] + WithoutToken(tokens[1..], t)
  }

  /**
   * Logout keeps an entry exactly when it was in the list and holds another
   * token, so the request's token is no longer live.
   */
  lemma {:induction false} WithoutTokenMembers(tokens: seq<TokenEntry>, t: string)
    ensures forall e :: e in WithoutToken(tokens, t) <==> e in tokens && e.token != t
    ensures !IsLive(WithoutToken(tokens, t), t)
  {
    if tokens != [] {
      WithoutTokenMembers(tokens[1..], t);
      assert forall e :: e in tokens <==> e == tokens[0] || e in tokens[1..];
    }
    var r := WithoutToken(tokens, t);
    forall i | 0 <= i < |r| ensures r[i].token != t {
      assert r[i] in r;
    }
  }

  /** Filtering distributes over concatenation, so the kept entries stay in their original order. */
  lemma {:induction false} WithoutTokenConcat(a: seq<TokenEntry>, b: seq<TokenEntry>, t: string)
    ensures WithoutToken(a + b, t) == WithoutToken(a, t) + WithoutToken(b, t)
  {
    if a == [] {
      assert a + b == b;
    } else {
      var rest := a[1..];
      var head := if a[0].token == t then [] else [a[0]];
      assert (a + b)[0] == a[0] && (a + b)[1..] == rest + b;
      assert WithoutToken(a + b, t) == head + WithoutToken(rest + b, t);
      WithoutTokenConcat(rest, b, t);
      AppendAssociative(head, WithoutToken(rest, t), WithoutToken(b, t));
    }
  }

  lemma AppendAssociative<T>(p: seq<T>, q: seq<T>, r: seq<T>)
    ensures p + (q + r) == (p + q) + r
  {
  }

  /** A list in which no entry holds `t` is left exactly as it was. */
  lemma {:induction false} WithoutAbsentToken(tokens: seq<TokenEntry>, t: string)
    requires !IsLive(tokens, t)
    ensures WithoutToken(tokens, t) == tokens
  {
    if tokens != [] {
      assert tokens[0].token != t;
      assert !IsLive(tokens[1..], t) by {
        forall i | 0 <= i < |tokens[1..]| ensures tokens[1..][i].token != t {
          assert tokens[1..][i] == tokens[i + 1];
        }
      }
      WithoutAbsentToken(tokens[1..], t);
    }
  }

  /** Logging out twice with the same token is the same as logging out once. */
  lemma LogoutIdempotent(tokens: seq<TokenEntry>, t: string)
    ensures WithoutToken(WithoutToken(tokens, t), t) == WithoutToken(tokens, t)
  {
    WithoutTokenMembers(tokens, t);
    WithoutAbsentToken(WithoutToken(tokens, t), t);
  }

  /** Logging out with `t` leaves every other session exactly as live as before. */
  lemma {:induction false} LogoutKeepsOtherSessions(tokens: seq<TokenEntry>, t: string, u: string)
    requires u != t
    ensures IsLive(WithoutToken(tokens, t), u) <==> IsLive(tokens, u)
  {
    var r := WithoutToken(tokens, t);
    WithoutTokenMembers(tokens, t);
    if IsLive(tokens, u) {
      var i :| 0 <= i < |tokens| && tokens[i].token == u;
      assert tokens[i] in r;
    }
    if IsLive(r, u) {
      var j :| 0 <= j < |r| && r[j].token == u;
      assert r[j] in tokens;
    }
  }

  // ---------------------------------------------------------------------
  // Profile patch
  // ---------------------------------------------------------------------

  /** `Object.keys(req.body)`. */
  function Keys(body: Body): (ks: seq<string>)
    ensures |ks| == |body|
    ensures forall i :: 0 <= i < |body| ==> ks[i] == body[i].0
  {
    if body == [] then [] else [body[0].0] + Keys(body[1..])
  }

  /** `updates.every(update => allowedUpdates.includes(update))`. */
  function IsValidOperation(updates: seq<string>): (ok: bool)
    ensures ok <==> forall i :: 0 <= i < |updates| ==> updates[i] in AllowedUpdates
  {
    updates == [] || (updates[0] in AllowedUpdates && IsValidOperation(updates[1..]))
  }

  /** No key occurs twice, as `Object.keys` guarantees. */
  predicate KeysDistinct(body: Body) {
    forall i, j :: 0 <= i < j < |body| ==> body[i].0 != body[j].0
  }

  /**
   * The value field `key` holds after `body` has been assigned entry by entry
   * to a record where it held `current`: the last entry for `key` wins.
   */
  function FieldAfter(body: Body, key: string, current: Value): (v: Value)
    ensures v == current || exists i :: 0 <= i < |body| && body[i] == (key, v)
  {
    if body == [] then current
    else if body[|body| - 1].0 == key then body[|body| - 1].1
    else FieldAfter(body[..|body| - 1], key, current)
  }

  /** The four allowed keys are pairwise different (they differ in their first letter). */
  lemma AllowedKeysDistinct()
    ensures "name" != "email" && "name" != "password" && "name" != "age"
    ensures "email" != "password" && "email" != "age" && "password" != "age"
  {
    assert "name"[0] == 'n' && "email"[0] == 'e' && "password"[0] == 'p' && "age"[0] == 'a';
  }

  /** Assigning one more entry: only the field it names changes. */
  lemma FieldAfterStep(body: Body, i: nat, key: string, current: Value)
    requires i < |body|
    ensures FieldAfter(body[..i + 1], key, current)
         == if body[i].0 == key then body[i].1 else FieldAfter(body[..i], key, current)
  {
    assert body[..i + 1][..i] == body[..i];
  }

  /** A key the body names is set to the body's value for it. */
  lemma {:induction false} PatchAssignsNamedKey(body: Body, j: nat, current: Value)
    requires KeysDistinct(body)
    requires j < |body|
    ensures FieldAfter(body, body[j].0, current) == body[j].1
  {
    var n := |body| - 1;
    if j < n {
      assert body[n].0 != body[j].0;
      var front := body[..n];
      assert KeysDistinct(front) by {
        forall a, b | 0 <= a < b < |front| ensures front[a].0 != front[b].0 {
          assert front[a] == body[a] && front[b] == body[b];
        }
      }
      assert front[j] == body[j];
      PatchAssignsNamedKey(front, j, current);
    }
  }

  /** A key the body does not name keeps its value. */
  lemma {:induction false} PatchKeepsUnnamedKey(body: Body, key: string, current: Value)
    requires key !in Keys(body)
    ensures FieldAfter(body, key, current) == current
  {
    if body != [] {
      var n := |body| - 1;
      assert Keys(body)[n] == body[n].0;
      var front := body[..n];
      assert key !in Keys(front) by {
        forall i | 0 <= i < |front| ensures Keys(front)[i] != key {
          assert Keys(front)[i] == body[i].0 == Keys(body)[i];
        }
      }
      PatchKeepsUnnamedKey(front, key, current);
    }
  }

  // ---------------------------------------------------------------------
  // Avatar upload filter
  // ---------------------------------------------------------------------

  predicate EndsWith(s: string, suffix: string) {
    |suffix| <= |s| && s[|s| - |suffix|..] == suffix
  }

  /**
   * multer's `fileFilter`: the name matches `/\.(jpg|jpeg|png)$/`, that is, some
   * position of the name starts one of the three suffixes and runs to its end.
   * The match is case-sensitive.
   */
  function AcceptsImageName(name: string): (ok: bool)
    ensures ok <==> exists k :: 0 <= k <= |name| && name[k..] in ImageSuffixes
  {
    var ok := EndsWith(name, ".jpg") || EndsWith(name, ".jpeg") || EndsWith(name, ".png");
    if ok then
      var k := if EndsWith(name, ".jpg") then |name| - 4
               else if EndsWith(name, ".jpeg") then |name| - 5
               else |name| - 4;
      assert name[k..] in ImageSuffixes;
      ok
    else
      assert forall k :: 0 <= k <= |name| ==> name[k..] !in ImageSuffixes by {
        forall k | 0 <= k <= |name| ensures name[k..] !in ImageSuffixes {
          if name[k..] in ImageSuffixes {
            assert EndsWith(name, name[k..]);
          }
        }
      }
      ok
  }

  // ---------------------------------------------------------------------
  // The user record
  // ---------------------------------------------------------------------

  /**
   * The authenticated user (`req.user`): profile fields hold the JSON values
   * last assigned to them, `tokens` the live sessions, `avatar` the stored PNG.
   */
  class UserRecord {
    var name: Value
    var email: Value
    var password: Value
    var age: Value
    var tokens: seq<TokenEntry>
    var avatar: Option<Bytes>

    /**
     * `new User(req.body)`: every path the body gives is copied, including a
     * token list or an avatar if the body carries them.
     */
    constructor (name: Value, email: Value, password: Value, age: Value,
                 tokens: seq<TokenEntry>, avatar: Option<Bytes>)
      ensures this.name == name && this.email == email
      ensures this.password == password && this.age == age
      ensures this.tokens == tokens && this.avatar == avatar
    {
      this.name, this.email, this.password, this.age := name, email, password, age;
      this.tokens, this.avatar := tokens, avatar;
    }

    /**
     * Session issue, whose token minting is not part of this model: the
     * freshly minted entry is appended to the list.
     */
    method AddToken(entry: TokenEntry)
      modifies this
      ensures tokens == old(tokens) + [entry]
      ensures IsLive(tokens, entry.token)
      ensures name == old(name) && email == old(email) && password == old(password)
      ensures age == old(age) && avatar == old(avatar)
    {
      tokens := tokens + [entry];
      assert tokens[|tokens| - 1] == entry;
    }

    /** `POST /users/logout`: drop every entry holding the request's token. */
    method Logout(t: string)
      modifies this
      ensures tokens == WithoutToken(old(tokens), t)
      ensures !IsLive(tokens, t)
      ensures |tokens| == |old(tokens)| - CountToken(old(tokens), t)
      ensures name == old(name) && email == old(email) && password == old(password)
      ensures age == old(age) && avatar == old(avatar)
    {
      WithoutTokenMembers(tokens, t);
      tokens := WithoutToken(tokens, t);
    }

    /** `POST /users/logoutAll`: every session ends. */
    method LogoutAll()
      modifies this
      ensures tokens == []
      ensures forall t :: !IsLive(tokens, t)
      ensures name == old(name) && email == old(email) && password == old(password)
      ensures age == old(age) && avatar == old(avatar)
    {
      tokens := [];
    }

    /**
     * `PATCH /users/me`: a body with a key outside the allow-list is refused
     * with nothing assigned; otherwise each key is assigned in turn.
     */
    method ApplyPatch(body: Body) returns (outcome: PatchOutcome)
      modifies this
      ensures outcome == Updated <==> IsValidOperation(Keys(body))
      ensures outcome == WrongParameters ==> unchanged(this)
      ensures outcome == Updated ==>
        && name == FieldAfter(body, "name", old(name))
        && email == FieldAfter(body, "email", old(email))
        && password == FieldAfter(body, "password", old(password))
        && age == FieldAfter(body, "age", old(age))
        && tokens == old(tokens) && avatar == old(avatar)
    {
      if !IsValidOperation(Keys(body)) {
        return WrongParameters;
      }
      AllowedKeysDistinct();
      ghost var name0, email0, password0, age0 := name, email, password, age;
      var i := 0;
      while i < |body|
        invariant 0 <= i <= |body|
        invariant name == FieldAfter(body[..i], "name", name0)
        invariant email == FieldAfter(body[..i], "email", email0)
        invariant password == FieldAfter(body[..i], "password", password0)
        invariant age == FieldAfter(body[..i], "age", age0)
        invariant tokens == old(tokens) && avatar == old(avatar)
      {
        var key, value := body[i].0, body[i].1;
        assert key in AllowedUpdates by { assert Keys(body)[i] == key; }
        FieldAfterStep(body, i, "name", name0);
        FieldAfterStep(body, i, "email", email0);
        FieldAfterStep(body, i, "password", password0);
        FieldAfterStep(body, i, "age", age0);
        if key == "name" {
          name := value;
        } else if key == "email" {
          email := value;
        } else if key == "password" {
          password := value;
        } else {
          age := value;
        }
        i := i + 1;
      }
      assert body[..|body|] == body;
      outcome := Updated;
    }

    /**
     * `POST /users/me/avatar`: the file filter runs first, then the size limit;
     * an accepted upload is stored as `resize` (sharp's 100x100 PNG) of its bytes.
     */
    method UploadAvatar(filename: string, upload: Bytes, resize: Bytes -> Bytes) returns (outcome: UploadOutcome)
      modifies this
      ensures outcome == AvatarUploaded <==> AcceptsImageName(filename) && |upload| <= MaxAvatarBytes
      ensures !AcceptsImageName(filename) ==> outcome == UploadRejected(ImageRequired)
      ensures AcceptsImageName(filename) && |upload| > MaxAvatarBytes ==> outcome == UploadRejected(FileTooLarge)
      ensures avatar == if outcome == AvatarUploaded then Some(resize(upload)) else old(avatar)
      ensures name == old(name) && email == old(email) && password == old(password)
      ensures age == old(age) && tokens == old(tokens)
    {
      if !AcceptsImageName(filename) {
        return UploadRejected(ImageRequired);
      }
      if |upload| > MaxAvatarBytes {
        return UploadRejected(FileTooLarge);
      }
      avatar := Some(resize(upload));
      outcome := AvatarUploaded;
    }

    /** `DELETE /users/me/avatar`. */
    method DeleteAvatar()
      modifies this
      ensures avatar == None
      ensures name == old(name) && email == old(email) && password == old(password)
      ensures age == old(age) && tokens == old(tokens)
    {
      avatar := None;
    }
  }

  /**
   * `GET /users/:id/avatar`, given the result of the lookup by id (`null` when
   * there is no such user): fails unless the user exists and has an avatar.
   */
  method FetchAvatar(user: UserRecord?) returns (r: Result<Bytes, FetchError>)
    ensures r.Ok? <==> user != null && user.avatar.Some?
    ensures r.Ok? ==> r.value == user.avatar.value
  {
    if user == null || user.avatar.None? {
      return Err(NoSuchUserOrAvatar);
    }
    r := Ok(user.avatar.value);
  }
}
