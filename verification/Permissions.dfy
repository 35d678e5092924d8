/** The comma-separated permission string of an access token. */
module Permissions {

  const READ_ONLY := "read"
  const READ_WRITE := "read,write"

  // The index of the first comma at or after i, or the end of the string.
  function EndOfItem(s: string, i: nat): (j: nat)
    requires i <= |s|
    ensures i <= j <= |s|
    ensures forall k :: i <= k < j ==> s[k] != ','
    ensures j < |s| ==> s[j] == ','
    decreases |s| - i
  {
    if i == |s| || s[i] == ',' then i else EndOfItem(s, i + 1)
  }

  // The items of s from position i on, as splitting at every comma gives them.
  function Split(s: string, i: nat := 0): (items: seq<string>)
    requires i <= |s|
    decreases |s| - i
  {
    var j := EndOfItem(s, i);
    if j == |s| then [s[i..j]] else [s[i..j]] + Split(s, j + 1)
  }

  // Splitting loses nothing: joining the items with commas gives the string back.
  function Join(items: seq<string>): string
    requires items != []
  {
    if |items| == 1 then items[0] else items[0] + "," + Join(items[1..])
  }

  lemma {:induction false} SplitIsExact(s: string, i: nat)
    requires i <= |s|
    ensures Split(s, i) != []
    ensures Join(Split(s, i)) == s[i..]
    ensures forall item :: item in Split(s, i) ==> ',' !in item
    decreases |s| - i
  {
    hide EndOfItem;
    var j := EndOfItem(s, i);
    assert ',' !in s[i..j];
    if j == |s| {
    } else {
      SplitIsExact(s, j + 1);
      assert Split(s, i)[1..] == Split(s, j + 1);
      assert s[i..] == s[i..j] + "," + s[j + 1..];
    }
  }

  // The items from i on are the one that ends at j, and those after it.
  lemma ItemAt(s: string, i: nat, j: nat, perm: string)
    requires i <= |s| && EndOfItem(s, i) == j
    ensures perm in Split(s, i) <==> s[i..j] == perm || (j < |s| && perm in Split(s, j + 1))
  {
    hide EndOfItem;
  }

  /** The scanner of AccessToken.HasPermission. It stops at the end of the string
      without looking at a last, empty item, which matters only for the permission "". */
  method HasPermission(permissions: string, perm: string) returns (granted: bool)
    ensures perm != "" ==> granted == (perm in Split(permissions))
    ensures perm == "" ==> granted == (exists k :: 0 <= k < |permissions| && EndOfItem(permissions, k) == k
                                                   && (k == 0 || permissions[k - 1] == ','))
  {
    hide Split;
    var i := 0;
    while i < |permissions|
      invariant 0 <= i <= |permissions| + 1
      invariant i == 0 || i == |permissions| + 1 || permissions[i - 1] == ','
      invariant i <= |permissions| ==> (perm in Split(permissions) <==> perm in Split(permissions, i))
      invariant i > |permissions| ==> perm !in Split(permissions)
      invariant perm == "" ==> forall k :: 0 <= k < i && k < |permissions| && EndOfItem(permissions, k) == k
                                           ==> k != 0 && permissions[k - 1] != ','
    {
      var j := i;
      while j < |permissions| && permissions[j] != ','
        invariant i <= j <= |permissions|
        invariant EndOfItem(permissions, i) == EndOfItem(permissions, j)
      {
        j := j + 1;
      }
      ItemAt(permissions, i, j, perm);
      if permissions[i..j] == perm {
        return true;
      }
      i := j + 1;
    }
    if i == |permissions| {
      ItemAt(permissions, i, i, perm);
    }
    return false;
  }

  // What the two permission strings this service mints grant.
  lemma MintedStrings(perm: string)
    requires perm != ""
    ensures perm in Split(READ_ONLY) <==> perm == "read"
    ensures perm in Split(READ_WRITE) <==> perm == "read" || perm == "write"
  {
    assert EndOfItem(READ_ONLY, 0) == 4 by { EndOfItemIs(READ_ONLY, 0, 4); }
    assert READ_ONLY[0..4] == "read";
    EndOfItemIs(READ_WRITE, 0, 4);
    EndOfItemIs(READ_WRITE, 5, 10);
    assert READ_WRITE[0..4] == "read" && READ_WRITE[5..10] == "write";
    assert Split(READ_WRITE) == ["read", "write"];
  }

  lemma EndOfItemIs(s: string, i: nat, j: nat)
    requires i <= j <= |s|
    requires forall k :: i <= k < j ==> s[k] != ','
    requires j == |s| || s[j] == ','
    ensures EndOfItem(s, i) == j
  {
    var e := EndOfItem(s, i);
  }
}
