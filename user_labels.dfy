/** How a user is named on screen: the signed-in label and the admin table's
    username column, the display-name component with its Dev badge, and the
    header avatar's fallback letter. */
module UserLabels {
  import opened Common
  import opened Strings

  /** `displayName || email.split('@')[0]`: the display name, or else the
      part of the email before its first `@`. */
  function Username(displayName: Option<string>, email: string): (r: string)
    ensures Truthy(displayName) ==> r == displayName.value
    ensures !Truthy(displayName) ==>
      (&& StartsWith(email, r) && '@' !in r
       && ('@' !in email ==> r == email))
    ensures !Truthy(displayName) && '@' in email ==> |r| < |email| && email[|r|] == '@'
  {
    SplitFirstIsPrefix(email, '@');
    if Truthy(displayName) then displayName.value else Split(email, '@')[0]
  }

  /** `displayName || '...'`, rendered as given. */
  function ShownName(displayName: Option<string>): (r: string)
    ensures Truthy(displayName) ==> r == displayName.value
    ensures !Truthy(displayName) ==> r == "..."
  {
    OrElse(displayName, "...")
  }

  const DEV_NAME := "maxplasss"

  /** The Dev badge: the shown name, lowercased, is the developer's name. */
  predicate IsDev(displayName: Option<string>)
  {
    Lower(ShownName(displayName)) == DEV_NAME
  }

  /** The badge ignores case, and a missing or empty name never gets it. */
  lemma DevBadgeIff(displayName: Option<string>)
    ensures IsDev(displayName) <==> Truthy(displayName) && Lower(displayName.value) == DEV_NAME
  {
    if !Truthy(displayName) {
      assert Lower("...")[0] == '.';
    }
  }

  /** Every capitalisation of the developer's name gets the badge. */
  lemma DevBadgeIgnoresCase(name: string)
    requires |name| == |DEV_NAME| && forall i | 0 <= i < |name| :: LowerChar(name[i]) == DEV_NAME[i]
    ensures IsDev(Some(name))
  {
    assert Lower(name) == DEV_NAME;
  }

  /** `(displayName || email || 'U').charAt(0).toUpperCase()`. */
  function AvatarFallback(displayName: Option<string>, email: Option<string>): (r: string)
    ensures |r| == 1
    ensures Truthy(displayName) ==> r[0] == UpperChar(displayName.value[0])
    ensures !Truthy(displayName) && Truthy(email) ==> r[0] == UpperChar(email.value[0])
    ensures !Truthy(displayName) && !Truthy(email) ==> r == "U"
  {
    var source := if Truthy(displayName) then displayName.value else OrElse(email, "U");
    [UpperChar(source[0])]
  }
}
