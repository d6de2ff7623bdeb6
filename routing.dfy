/** Where messages go: the QQ target a session key belongs to
    (`qqTargetFromSessionKey`, index.js:47-57) and the per-conversation key
    under which sends are queued and paced (`contextKey`, index.js:435-437,
    and `deriveContextKey`, index.js:521-523). */
module Routing {
  import opened Text

  datatype Option<T> = None | Some(value: T)

  /** A QQ destination: a group (with the user the session belongs to) or a
      private chat. Ids are the decimal strings the key carries. */
  datatype Target = Target(isGroup: bool, groupId: Option<string>, userId: string)

  predicate EndsWith(s: string, suffix: string) {
    |s| >= |suffix| && s[|s| - |suffix|..] == suffix
  }

  /** Length of the longest run of digits that ends `s`. */
  function TrailingDigits(s: string): (n: nat)
    ensures n <= |s|
    ensures forall i :: |s| - n <= i < |s| ==> IsDigit(s[i])
    ensures n < |s| ==> !IsDigit(s[|s| - n - 1])
  {
    if |s| == 0 || !IsDigit(s[|s| - 1]) then 0 else 1 + TrailingDigits(s[..|s| - 1])
  }

  /** `/:qqg_(\d+)_(\d+)$/` is tried first, then `/:qq_(\d+)$/`. A match
      ends with a maximal run of digits preceded by `_`; for a group key the
      part before that `_` ends with another maximal run of digits preceded
      by `:qqg_`, for a private key it ends with `:qq`. */
  function QqTargetFromSessionKey(sessionKey: string): (t: Option<Target>)
    ensures t.Some? && t.value.isGroup ==>
      t.value.groupId.Some? && IsDigits(t.value.groupId.value) && IsDigits(t.value.userId)
      && EndsWith(sessionKey, ":qqg_" + t.value.groupId.value + "_" + t.value.userId)
    ensures t.Some? && !t.value.isGroup ==>
      t.value.groupId.None? && IsDigits(t.value.userId) && EndsWith(sessionKey, ":qq_" + t.value.userId)
  {
    var s := sessionKey;
    var n := TrailingDigits(s);
    if n == 0 || n == |s| || s[|s| - n - 1] != '_' then None
    else
      var user := s[|s| - n..];
      var before := s[..|s| - n - 1];
      assert s == before + "_" + user;
      var t := MatchBefore(before, user);
      EndsWithAppend(before, t, user);
      t
  }

  /** The rest of the match once the trailing `_` and user id are split
      off `before`. */
  function MatchBefore(before: string, user: string): (t: Option<Target>)
    requires IsDigits(user)
    ensures t.Some? ==> t.value.userId == user
    ensures t.Some? && t.value.isGroup ==>
      t.value.groupId.Some? && IsDigits(t.value.groupId.value) && EndsWith(before, ":qqg_" + t.value.groupId.value)
    ensures t.Some? && !t.value.isGroup ==> t.value.groupId.None? && EndsWith(before, ":qq")
  {
    var n := TrailingDigits(before);
    var head := before[..|before| - n];
    if n > 0 && EndsWith(head, ":qqg_") then
      var group := before[|before| - n..];
      assert before == head + group;
      assert before[|before| - |":qqg_" + group|..] == ":qqg_" + group;
      Some(Target(true, Some(group), user))
    else if EndsWith(before, ":qq") then Some(Target(false, None, user))
    else None
  }

  lemma EndsWithAppend(before: string, t: Option<Target>, user: string)
    requires t.Some? && t.value.isGroup ==> t.value.groupId.Some? && EndsWith(before, ":qqg_" + t.value.groupId.value)
    requires t.Some? && !t.value.isGroup ==> EndsWith(before, ":qq")
    ensures t.Some? && t.value.isGroup ==> EndsWith(before + "_" + user, ":qqg_" + t.value.groupId.value + "_" + user)
    ensures t.Some? && !t.value.isGroup ==> EndsWith(before + "_" + user, ":qq_" + user)
  {
    var s := before + "_" + user;
    if t.None? {
    } else if t.value.isGroup {
      var m := ":qqg_" + t.value.groupId.value;
      assert s == before[..|before| - |m|] + (m + "_" + user);
    } else {
      assert s == before[..|before| - 3] + (":qq" + "_" + user);
    }
  }

  /** A run of digits after a non-digit is exactly the trailing run. */
  lemma {:induction false} TrailingDigitsOf(p: string, d: string)
    requires forall i :: 0 <= i < |d| ==> IsDigit(d[i])
    requires |p| == 0 || !IsDigit(p[|p| - 1])
    ensures TrailingDigits(p + d) == |d|
    decreases |d|
  {
    if |d| > 0 {
      assert (p + d)[..|p + d| - 1] == p + d[..|d| - 1];
      TrailingDigitsOf(p, d[..|d| - 1]);
    }
  }

  /** Splitting off the trailing `_` and user id of `before + "_" + user`. */
  lemma SplitUser(before: string, user: string)
    requires IsDigits(user)
    ensures QqTargetFromSessionKey(before + "_" + user) == MatchBefore(before, user)
  {
    var s := before + "_" + user;
    TrailingDigitsOf(before + "_", user);
    assert s[|s| - |user|..] == user;
    assert s[..|s| - |user| - 1] == before;
  }

  /** Every group session key parses back to its group and user. */
  lemma GroupKeyParses(prefix: string, group: string, user: string)
    requires IsDigits(group) && IsDigits(user)
    ensures QqTargetFromSessionKey(prefix + ":qqg_" + group + "_" + user) == Some(Target(true, Some(group), user))
  {
    var before := prefix + ":qqg_" + group;
    SplitUser(before, user);
    TrailingDigitsOf(prefix + ":qqg_", group);
    assert before[..|before| - |group|] == prefix + ":qqg_";
    assert before[|before| - |group|..] == group;
  }

  /** Every private session key parses back to its user. */
  lemma PrivateKeyParses(prefix: string, user: string)
    requires IsDigits(user)
    ensures QqTargetFromSessionKey(prefix + ":qq_" + user) == Some(Target(false, None, user))
  {
    var before := prefix + ":qq";
    SplitUser(before, user);
    assert prefix + ":qq_" + user == before + "_" + user;
    assert TrailingDigits(before) == 0;
    assert before[..|before|] == before;
  }

  /** `contextKey(isGroup, groupId, userId)`, the ids already in string
      form. */
  function ContextKey(isGroup: bool, groupId: string, userId: string): string {
    if isGroup then "group:" + groupId else "user:" + userId
  }

  /** `deriveContextKey(isGroup, targetId)` */
  function DeriveContextKey(isGroup: bool, targetId: string): string {
    if isGroup then "group:" + targetId else "user:" + targetId
  }

  /** Context keys never mix a group with a private chat and identify the
      chat: different chats get different send lanes and pacing records. */
  lemma ContextKeyInjective(g1: bool, gid1: string, uid1: string, g2: bool, gid2: string, uid2: string)
    requires ContextKey(g1, gid1, uid1) == ContextKey(g2, gid2, uid2)
    ensures g1 == g2
    ensures g1 ==> gid1 == gid2
    ensures !g1 ==> uid1 == uid2
  {
    var k := ContextKey(g1, gid1, uid1);
    assert k[0] == (if g1 then 'g' else 'u');
    assert k[0] == (if g2 then 'g' else 'u');
    if g1 {
      assert gid1 == k[6..] == gid2;
    } else {
      assert uid1 == k[5..] == uid2;
    }
  }

  /** The key a reply is queued under (from the inbound message) and the key
      a later send to the same chat derives from its target agree. */
  lemma DerivedKeyAgrees(isGroup: bool, groupId: string, userId: string)
    ensures DeriveContextKey(isGroup, if isGroup then groupId else userId) == ContextKey(isGroup, groupId, userId)
  {
  }

  /** The two shapes of session key the bridge creates. */
  lemma PrivateExample()
    ensures QqTargetFromSessionKey("agent:main:openresponses-user:qq_1023182297")
      == Some(Target(false, None, "1023182297"))
  {
    var user := "1023182297";
    assert IsDigits(user);
    assert "agent:main:openresponses-user:qq_1023182297" == "agent:main:openresponses-user" + ":qq_" + user;
    PrivateKeyParses("agent:main:openresponses-user", user);
  }

  lemma GroupExample()
    ensures QqTargetFromSessionKey("agent:main:openresponses-user:qqg_587526665_1023182297")
      == Some(Target(true, Some("587526665"), "1023182297"))
  {
    var group, user := "587526665", "1023182297";
    assert IsDigits(group) && IsDigits(user);
    assert "agent:main:openresponses-user:qqg_587526665_1023182297"
      == "agent:main:openresponses-user" + ":qqg_" + group + "_" + user;
    GroupKeyParses("agent:main:openresponses-user", group, user);
  }
}
