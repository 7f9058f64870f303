/** AuthenticationRoleConverter: the authorities of a verified token are the roles of its `roles`
    claim, each prefixed with ROLE_ by the framework's default converter, together with the roles
    listed for this application under `resource_access`, added as they are. */
module RoleConverter {
  import opened Common

  /** A claim value, as the JSON parser hands it over. */
  datatype Json =
    | Null
    | Bool(b: bool)
    | Number(n: int)
    | Text(s: string)
    | Array(items: seq<Json>)
    | Object(fields: map<string, Json>)

  /** A verified token: its claims, by name. */
  datatype Jwt = Jwt(claims: map<string, Json>)

  const RolePrefix := "ROLE_"
  const ResourceAccess := "resource_access"
  const RolesKey := "roles"
  /** The message of SimpleGrantedAuthority's constructor for a blank role. */
  const AuthorityRequired := "A granted authority textual representation is required"

  /** Character.isWhitespace. */
  predicate IsWhitespace(c: char)
  {
    var n := c as int;
    || 0x09 <= n <= 0x0D || 0x1C <= n <= 0x20
    || n == 0x1680 || 0x2000 <= n <= 0x2006 || 0x2008 <= n <= 0x200A
    || n == 0x2028 || n == 0x2029 || n == 0x205F || n == 0x3000
  }

  /** StringUtils.hasText, scanning from the front. */
  function HasText(s: string): (r: bool)
    ensures r <==> exists i :: 0 <= i < |s| && !IsWhitespace(s[i])
  {
    if |s| == 0 then false
    else if !IsWhitespace(s[0]) then true
    else
      var rest := HasText(s[1..]);
      assert forall i :: 1 <= i < |s| ==> s[i] == s[1..][i - 1];
      rest
  }

  // ---------------------------------------------------------------------------------------------
  // The framework's default converter (JwtGrantedAuthoritiesConverter), set up at
  // AuthenticationRoleConverter.java:25-26 to read the `roles` claim and to prefix ROLE_.

  /** The pieces of `s` between its spaces, empty ones included. */
  function Pieces(s: string): (p: seq<string>)
    ensures |p| >= 1
    ensures forall i :: 0 <= i < |p| ==> ' ' !in p[i]
  {
    if |s| == 0 then [""]
    else
      var rest := Pieces(s[1..]);
      if s[0] == ' ' then [""] + rest
      else [[s[0]] + rest[0]] + rest[1..]
  }

  /** The pieces put back together, one space between each two. */
  function Join(p: seq<string>): string
    requires |p| >= 1
  {
    if |p| == 1 then p[0] else p[0] + " " + Join(p[1..])
  }

  /** Cutting at the spaces loses nothing: joining the pieces gives the string back. */
  lemma {:induction false} PiecesJoin(s: string)
    ensures Join(Pieces(s)) == s
  {
    if |s| > 0 {
      var rest := Pieces(s[1..]);
      PiecesJoin(s[1..]);
      if s[0] == ' ' {
        assert ([""] + rest)[1..] == rest;
        assert s == " " + s[1..];
      } else if |rest| == 1 {
        assert s == [s[0]] + rest[0];
      } else {
        var p := [[s[0]] + rest[0]] + rest[1..];
        assert p[1..] == rest[1..];
        assert Join(rest) == rest[0] + " " + Join(rest[1..]);
        assert s == ([s[0]] + rest[0]) + " " + Join(rest[1..]);
      }
    }
  }

  /** The list without its trailing empty strings, which String.split leaves out. */
  function DropTrailingEmpty(p: seq<string>): (r: seq<string>)
    ensures r <= p
    ensures |r| == 0 || r[|r| - 1] != ""
    ensures forall i :: |r| <= i < |p| ==> p[i] == ""
  {
    if |p| > 0 && p[|p| - 1] == "" then DropTrailingEmpty(p[..|p| - 1]) else p
  }

  /** `s.split(" ")`: the pieces between the spaces, a leading empty one kept, trailing ones not. */
  function SplitOnSpace(s: string): (r: seq<string>)
    ensures r <= Pieces(s)
    ensures forall i :: 0 <= i < |r| ==> ' ' !in r[i]
    ensures forall i :: |r| <= i < |Pieces(s)| ==> Pieces(s)[i] == ""
    ensures |r| == 0 || r[|r| - 1] != ""
  {
    DropTrailingEmpty(Pieces(s))
  }

  /** An item of a roles list as the default converter reads it: a string as it is, null as the
      text "null" that string concatenation makes of it, anything else failing the cast to
      String. */
  function ItemRoles(items: seq<Json>): (r: Result<seq<string>>)
    ensures r.Success? <==> forall i :: 0 <= i < |items| ==> items[i].Text? || items[i].Null?
    ensures r.Failure? ==> r.error == ClassCast
  {
    if |items| == 0 then Success([])
    else if !(items[0].Text? || items[0].Null?) then Failure(ClassCast)
    else
      var rest := ItemRoles(items[1..]);
      assert forall i :: 1 <= i < |items| ==> items[i] == items[1..][i - 1];
      match rest
      case Failure(e) => Failure(e)
      case Success(roles) => Success([if items[0].Text? then items[0].s else "null"] + roles)
  }

  /** The role names read from a list are its strings, and "null" when it holds a null. */
  lemma {:induction false} ItemRolesContents(items: seq<Json>)
    requires ItemRoles(items).Success?
    ensures forall x :: x in ItemRoles(items).value <==> Text(x) in items || (x == "null" && Null in items)
  {
    if |items| > 0 {
      assert items == [items[0]] + items[1..];
      ItemRolesContents(items[1..]);
    }
  }

  /** The role names of the roles claim (getAuthorities): a string with text cut at its spaces, a
      list item by item, and none for an absent claim, a blank string or a claim of any other
      kind. */
  function ClaimRoles(claims: map<string, Json>): (r: Result<seq<string>>)
    ensures r.Failure? ==> r.error == ClassCast
  {
    if RolesKey !in claims then Success([])
    else match claims[RolesKey]
      case Text(s) => if HasText(s) then Success(SplitOnSpace(s)) else Success([])
      case Array(items) => ItemRoles(items)
      case _ => Success([])
  }

  /** Every ROLE_ authority has text, whatever follows the prefix. */
  lemma PrefixedHasText()
    ensures forall x :: HasText(RolePrefix + x)
  {
  }

  /** The authorities the default converter grants for the role names: each with the prefix. */
  function ClaimAuthorities(roles: seq<string>): (r: set<string>)
    ensures forall a :: a in r ==> HasText(a)
  {
    PrefixedHasText();
    set x | x in roles :: RolePrefix + x
  }

  /** The exception a non-authority item raises: null and blank strings fail the constructor's
      text check, anything that is no string fails the cast. */
  function ItemError(item: Json): Error
  {
    if item.Text? || item.Null? then IllegalArgument(AuthorityRequired) else ClassCast
  }

  /** A granted authority can be built from the item. */
  predicate IsAuthority(item: Json)
  {
    item.Text? && HasText(item.s)
  }

  /** `roles.stream().map(SimpleGrantedAuthority::new).collect(toSet())`: the items in order,
      the first that is not a usable role throwing. */
  function Authorities(items: seq<Json>): (r: Result<set<string>>)
    ensures r.Success? <==> forall i :: 0 <= i < |items| ==> IsAuthority(items[i])
    ensures r.Success? ==> forall a :: a in r.value ==> HasText(a)
    ensures r.Failure? ==> r.error == ClassCast || r.error == IllegalArgument(AuthorityRequired)
  {
    if |items| == 0 then Success({})
    else if !IsAuthority(items[0]) then Failure(ItemError(items[0]))
    else
      var rest := Authorities(items[1..]);
      assert forall i :: 1 <= i < |items| ==> items[i] == items[1..][i - 1];
      match rest
      case Failure(e) => Failure(e)
      case Success(roles) => Success({items[0].s} + roles)
  }

  /** The granted authorities are exactly the listed strings. */
  lemma {:induction false} AuthoritiesContents(items: seq<Json>)
    requires Authorities(items).Success?
    ensures forall a :: a in Authorities(items).value <==> Text(a) in items
  {
    if |items| > 0 {
      assert items == [items[0]] + items[1..];
      AuthoritiesContents(items[1..]);
    }
  }

  /** A failure is the exception of the first item that is not a usable role. */
  lemma {:induction false} AuthoritiesFailure(items: seq<Json>) returns (i: nat)
    requires Authorities(items).Failure?
    ensures i < |items| && !IsAuthority(items[i]) && Authorities(items).error == ItemError(items[i])
    ensures forall j :: 0 <= j < i ==> IsAuthority(items[j])
  {
    if IsAuthority(items[0]) {
      var k := AuthoritiesFailure(items[1..]);
      i := k + 1;
      assert forall j :: 1 <= j < i ==> items[j] == items[1..][j - 1];
    } else {
      i := 0;
    }
  }

  /** The fields of resource_access[appName], or an empty map when that entry is no JSON object
      (the `instanceof Map` test). */
  function AppEntry(resourceAccess: map<string, Json>, appName: string): (r: map<string, Json>)
    ensures appName in resourceAccess && resourceAccess[appName].Object? ==> r == resourceAccess[appName].fields
    ensures !(appName in resourceAccess && resourceAccess[appName].Object?) ==> r == map[]
  {
    if appName in resourceAccess && resourceAccess[appName].Object? then resourceAccess[appName].fields
    else map[]
  }

  /** extractResourceRoles: the roles under resource_access[appName].roles, none when a step of
      that path is missing or null, a cast failure when resource_access is no object or the roles
      are no list. */
  function ExtractResourceRoles(claims: map<string, Json>, appName: string): (r: Result<set<string>>)
    ensures r.Success? ==> forall a :: a in r.value ==> HasText(a)
    ensures r.Failure? ==> r.error == ClassCast || r.error == IllegalArgument(AuthorityRequired)
    ensures ResourceAccess !in claims ==> r == Success({})
  {
    if ResourceAccess !in claims || claims[ResourceAccess].Null? then Success({})
    else if !claims[ResourceAccess].Object? then Failure(ClassCast)
    else
      var app := AppEntry(claims[ResourceAccess].fields, appName);
      if RolesKey !in app || app[RolesKey].Null? then Success({})
      else if !app[RolesKey].Array? then Failure(ClassCast)
      else Authorities(app[RolesKey].items)
  }

  /** convert: the default converter's authorities first, then the application's, as one set.
      Every authority granted has text, and the only exceptions are a failed cast and a blank
      application role. */
  function Convert(jwt: Jwt, appName: string): (r: Result<set<string>>)
    ensures r.Success? ==> forall a :: a in r.value ==> HasText(a)
    ensures r.Failure? ==> r.error == ClassCast || r.error == IllegalArgument(AuthorityRequired)
  {
    match ClaimRoles(jwt.claims)
    case Failure(e) => Failure(e)
    case Success(roles) =>
      match ExtractResourceRoles(jwt.claims, appName)
      case Failure(e) => Failure(e)
      case Success(resourceRoles) => Success(ClaimAuthorities(roles) + resourceRoles)
  }

  // ---------------------------------------------------------------------------------------------
  // A reference description of which authorities a token grants, written without the lookups.

  /** The roles claim names `x`: a word of a string claim with text, a string of a list claim, or
      "null" for a null in a list claim. */
  ghost predicate ClaimNames(claims: map<string, Json>, x: string)
  {
    && RolesKey in claims
    && match claims[RolesKey]
       case Text(s) => HasText(s) && x in SplitOnSpace(s)
       case Array(items) => Text(x) in items || (x == "null" && Null in items)
       case _ => false
  }

  /** `a` is ROLE_ followed by a role the roles claim names. */
  ghost predicate FromRolesClaim(claims: map<string, Json>, a: string)
  {
    |RolePrefix| <= |a| && a[..|RolePrefix|] == RolePrefix && ClaimNames(claims, a[|RolePrefix|..])
  }

  /** The roles claim is a list with an item that is neither a string nor null. */
  ghost predicate RolesClaimMalformed(claims: map<string, Json>)
  {
    && RolesKey in claims && claims[RolesKey].Array?
    && exists i :: 0 <= i < |claims[RolesKey].items|
                   && !(claims[RolesKey].items[i].Text? || claims[RolesKey].items[i].Null?)
  }

  /** The JSON array at resource_access[appName].roles, if every step of that path is there. */
  ghost predicate HasAppRoles(claims: map<string, Json>, appName: string)
  {
    && ResourceAccess in claims && claims[ResourceAccess].Object?
    && appName in claims[ResourceAccess].fields && claims[ResourceAccess].fields[appName].Object?
    && RolesKey in claims[ResourceAccess].fields[appName].fields
    && claims[ResourceAccess].fields[appName].fields[RolesKey].Array?
  }

  ghost function AppRoles(claims: map<string, Json>, appName: string): seq<Json>
    requires HasAppRoles(claims, appName)
  {
    claims[ResourceAccess].fields[appName].fields[RolesKey].items
  }

  /** `a` is listed, as it is, among this application's roles. */
  ghost predicate FromAppEntry(claims: map<string, Json>, appName: string, a: string)
  {
    HasAppRoles(claims, appName) && Text(a) in AppRoles(claims, appName)
  }

  /** The token cannot be converted: resource_access is neither absent, null nor an object, or
      this application's `roles` is there, not null, and not an array of non-blank strings. */
  ghost predicate Malformed(claims: map<string, Json>, appName: string)
  {
    || (ResourceAccess in claims && !claims[ResourceAccess].Null? && !claims[ResourceAccess].Object?)
    || (&& ResourceAccess in claims && claims[ResourceAccess].Object?
        && appName in claims[ResourceAccess].fields && claims[ResourceAccess].fields[appName].Object?
        && RolesKey in claims[ResourceAccess].fields[appName].fields
        && var roles := claims[ResourceAccess].fields[appName].fields[RolesKey];
        && !roles.Null?
        && (!roles.Array? || exists i :: 0 <= i < |roles.items| && !IsAuthority(roles.items[i])))
  }

  /** An authority of the default converter is ROLE_ followed by one of the role names. */
  lemma PrefixedIsFromRolesClaim(roles: seq<string>, a: string)
    ensures a in ClaimAuthorities(roles) <==>
      |RolePrefix| <= |a| && a[..|RolePrefix|] == RolePrefix && a[|RolePrefix|..] in roles
  {
    if |RolePrefix| <= |a| && a[..|RolePrefix|] == RolePrefix && a[|RolePrefix|..] in roles {
      assert a == RolePrefix + a[|RolePrefix|..];
    }
    if a in ClaimAuthorities(roles) {
      var x :| x in roles && a == RolePrefix + x;
      assert a[|RolePrefix|..] == x;
    }
  }

  /** The role names read from the roles claim are exactly the ones it names, and reading fails
      exactly on a list holding something other than strings and nulls. */
  lemma ClaimRolesContents(claims: map<string, Json>)
    ensures ClaimRoles(claims).Failure? <==> RolesClaimMalformed(claims)
    ensures ClaimRoles(claims).Success? ==>
      forall x :: x in ClaimRoles(claims).value <==> ClaimNames(claims, x)
  {
    if RolesKey in claims && claims[RolesKey].Array? && ClaimRoles(claims).Success? {
      ItemRolesContents(claims[RolesKey].items);
    }
  }

  /** The conversion fails exactly on a malformed roles claim or resource_access, and otherwise
      grants exactly the prefixed role names of the roles claim and, unprefixed, the roles under
      this application's entry. The roles claim is read first, so its failure is the one
      reported. */
  lemma ConvertGrants(jwt: Jwt, appName: string)
    ensures Convert(jwt, appName).Failure? <==>
      RolesClaimMalformed(jwt.claims) || Malformed(jwt.claims, appName)
    ensures RolesClaimMalformed(jwt.claims) ==> Convert(jwt, appName) == Failure(ClassCast)
    ensures Convert(jwt, appName).Success? ==>
      forall a :: a in Convert(jwt, appName).value <==>
        FromRolesClaim(jwt.claims, a) || FromAppEntry(jwt.claims, appName, a)
  {
    ClaimRolesContents(jwt.claims);
    if HasAppRoles(jwt.claims, appName) && Convert(jwt, appName).Success? {
      AuthoritiesContents(AppRoles(jwt.claims, appName));
    }
    forall a | Convert(jwt, appName).Success?
      ensures a in Convert(jwt, appName).value <==> FromRolesClaim(jwt.claims, a) || FromAppEntry(jwt.claims, appName, a)
    {
      PrefixedIsFromRolesClaim(ClaimRoles(jwt.claims).value, a);
    }
  }

  /** When there is no resource_access claim, or it has no object for this application, or that
      object has no roles, only the roles claim contributes. */
  lemma NoAppEntryGrantsClaimRolesOnly(jwt: Jwt, appName: string)
    requires || ResourceAccess !in jwt.claims
             || (jwt.claims[ResourceAccess].Object? && !(appName in jwt.claims[ResourceAccess].fields
                   && jwt.claims[ResourceAccess].fields[appName].Object?))
             || (jwt.claims[ResourceAccess].Object? && appName in jwt.claims[ResourceAccess].fields
                   && jwt.claims[ResourceAccess].fields[appName].Object?
                   && RolesKey !in jwt.claims[ResourceAccess].fields[appName].fields)
    ensures ClaimRoles(jwt.claims).Failure? ==> Convert(jwt, appName) == Failure(ClassCast)
    ensures ClaimRoles(jwt.claims).Success? ==>
      Convert(jwt, appName) == Success(ClaimAuthorities(ClaimRoles(jwt.claims).value))
  {
    if ResourceAccess in jwt.claims {
      var app := AppEntry(jwt.claims[ResourceAccess].fields, appName);
      assert RolesKey !in app;
    }
    assert ExtractResourceRoles(jwt.claims, appName) == Success({});
    if ClaimRoles(jwt.claims).Success? {
      var claimed := ClaimAuthorities(ClaimRoles(jwt.claims).value);
      assert claimed + {} == claimed;
    }
  }

  /** Entries of resource_access under any other key never change the outcome. */
  lemma OtherEntriesIgnored(jwt: Jwt, appName: string, other: string, v: Json)
    requires other != appName
    requires ResourceAccess in jwt.claims && jwt.claims[ResourceAccess].Object?
    ensures var fields := jwt.claims[ResourceAccess].fields;
      Convert(jwt.(claims := jwt.claims[ResourceAccess := Object(fields[other := v])]), appName)
        == Convert(jwt, appName)
  {
  }

  /** Claims other than roles and resource_access never change the outcome. */
  lemma OtherClaimsIgnored(jwt: Jwt, appName: string, name: string, v: Json)
    requires name != ResourceAccess && name != RolesKey
    ensures Convert(jwt.(claims := jwt.claims[name := v]), appName) == Convert(jwt, appName)
  {
  }

  /** An authority that both sources produce is counted once. */
  lemma SharedAuthoritiesCountOnce(jwt: Jwt, appName: string)
    requires Convert(jwt, appName).Success?
    ensures var claimed := ClaimAuthorities(ClaimRoles(jwt.claims).value);
      var listed := ExtractResourceRoles(jwt.claims, appName).value;
      |Convert(jwt, appName).value| == |claimed| + |listed| - |claimed * listed|
  {
  }

  /** A string claim grants what the list of its words grants. */
  lemma SpaceSeparatedIsList(jwt: Jwt, appName: string, s: string)
    requires HasText(s)
    ensures var words := SplitOnSpace(s);
      var asList := seq(|words|, i requires 0 <= i < |words| => Text(words[i]));
      Convert(jwt.(claims := jwt.claims[RolesKey := Text(s)]), appName)
        == Convert(jwt.(claims := jwt.claims[RolesKey := Array(asList)]), appName)
  {
    var words := SplitOnSpace(s);
    var asList := seq(|words|, i requires 0 <= i < |words| => Text(words[i]));
    ItemRolesOfStrings(words, asList);
  }

  /** A list of strings reads as those strings. */
  lemma {:induction false} ItemRolesOfStrings(words: seq<string>, items: seq<Json>)
    requires |items| == |words| && forall i :: 0 <= i < |words| ==> items[i] == Text(words[i])
    ensures ItemRoles(items) == Success(words)
  {
    if |words| > 0 {
      ItemRolesOfStrings(words[1..], items[1..]);
      assert words == [words[0]] + words[1..];
    }
  }

  /** Adding a role to a roles list claim adds exactly its ROLE_ authority and takes none away. */
  lemma MoreClaimRolesKeepAuthorities(jwt: Jwt, appName: string, role: string)
    requires Convert(jwt, appName).Success?
    requires RolesKey in jwt.claims && jwt.claims[RolesKey].Array?
    ensures var items := jwt.claims[RolesKey].items;
      Convert(jwt.(claims := jwt.claims[RolesKey := Array(items + [Text(role)])]), appName)
        == Success(Convert(jwt, appName).value + {RolePrefix + role})
  {
    var items := jwt.claims[RolesKey].items;
    var claims := jwt.claims[RolesKey := Array(items + [Text(role)])];
    ItemRolesAppend(items, role);
    var names := ItemRoles(items).value;
    assert ClaimRoles(claims) == Success(names + [role]);
    assert ExtractResourceRoles(claims, appName) == ExtractResourceRoles(jwt.claims, appName);
    assert ClaimAuthorities(names + [role]) == ClaimAuthorities(names) + {RolePrefix + role};
    var listed := ExtractResourceRoles(jwt.claims, appName).value;
    assert ClaimAuthorities(names) + {RolePrefix + role} + listed
        == (ClaimAuthorities(names) + listed) + {RolePrefix + role};
  }

  /** Appending a string to a roles list appends that name. */
  lemma {:induction false} ItemRolesAppend(items: seq<Json>, role: string)
    requires ItemRoles(items).Success?
    ensures ItemRoles(items + [Text(role)]) == Success(ItemRoles(items).value + [role])
  {
    if |items| == 0 {
      assert items + [Text(role)] == [Text(role)] && [Text(role)][1..] == [];
      assert ItemRoles([Text(role)]) == Success([role] + ItemRoles([]).value);
      assert ItemRoles(items).value == [] && [role] + [] == [] + [role];
    } else {
      var longer := items + [Text(role)];
      assert longer[0] == items[0] && longer[1..] == items[1..] + [Text(role)];
      assert forall i :: 1 <= i < |items| ==> items[i] == items[1..][i - 1];
      ItemRolesAppend(items[1..], role);
      var head := if items[0].Text? then items[0].s else "null";
      var tail := ItemRoles(items[1..]).value;
      assert ItemRoles(items).value == [head] + tail;
      assert ItemRoles(longer) == Success([head] + (tail + [role]));
      assert [head] + (tail + [role]) == ([head] + tail) + [role];
    }
  }

  /** Appending a usable role to a list of roles adds exactly that role. */
  lemma {:induction false} AuthoritiesAppend(items: seq<Json>, role: string)
    requires Authorities(items).Success? && HasText(role)
    ensures Authorities(items + [Text(role)]) == Success(Authorities(items).value + {role})
  {
    if |items| == 0 {
      assert items + [Text(role)] == [Text(role)] && [Text(role)][1..] == [];
      assert Authorities([Text(role)]) == Success({role} + Authorities([]).value);
      assert Authorities(items).value == {} && {role} + {} == {} + {role};
    } else {
      var longer := items + [Text(role)];
      assert longer[0] == items[0] && longer[1..] == items[1..] + [Text(role)];
      assert forall i :: 1 <= i < |items| ==> items[i] == items[1..][i - 1];
      assert Authorities(items).value == {items[0].s} + Authorities(items[1..]).value;
      AuthoritiesAppend(items[1..], role);
      var tail := Authorities(items[1..]).value;
      assert Authorities(longer[1..]) == Success(tail + {role});
      assert Authorities(longer) == Success({items[0].s} + (tail + {role}));
      assert {items[0].s} + (tail + {role}) == ({items[0].s} + tail) + {role};
    }
  }

  /** resource_access with one more role for this application. */
  ghost function WithAppRole(claims: map<string, Json>, appName: string, role: string): map<string, Json>
    requires HasAppRoles(claims, appName)
  {
    var ra := claims[ResourceAccess].fields;
    var app := ra[appName].fields;
    claims[ResourceAccess := Object(ra[appName := Object(app[RolesKey := Array(AppRoles(claims, appName) + [Text(role)])])])]
  }

  /** Adding a role to this application's entry never takes an authority away. */
  lemma MoreAppRolesKeepAuthorities(jwt: Jwt, appName: string, role: string)
    requires Convert(jwt, appName).Success? && HasAppRoles(jwt.claims, appName) && HasText(role)
    ensures Convert(jwt.(claims := WithAppRole(jwt.claims, appName, role)), appName)
              == Success(Convert(jwt, appName).value + {role})
  {
    var items := AppRoles(jwt.claims, appName);
    var claims := WithAppRole(jwt.claims, appName, role);
    AuthoritiesAppend(items, role);
    assert ExtractResourceRoles(jwt.claims, appName) == Authorities(items);
    var app := AppEntry(claims[ResourceAccess].fields, appName);
    assert app[RolesKey] == Array(items + [Text(role)]);
    assert ExtractResourceRoles(claims, appName) == Authorities(items + [Text(role)]);
    var claimed := ClaimAuthorities(ClaimRoles(jwt.claims).value);
    var listed := Authorities(items).value;
    assert Convert(jwt, appName) == Success(claimed + listed);
    assert Convert(jwt.(claims := claims), appName) == Success(claimed + (listed + {role}));
    assert claimed + (listed + {role}) == (claimed + listed) + {role};
  }
}
