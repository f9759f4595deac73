/**
 * The dashboard sidebar: the avatar's initials and the active menu entry.
 * `toUpperCase` is the parameter `upper`, since full Unicode case mapping can
 * change a string's length.
 */
module Sidebar {
  import opened Wrappers
  import opened Strings

  /** The signed-in user's two possibly missing names; a missing one is null or undefined. */
  datatype User = User(displayName: Option<string>, email: Option<string>)

  /** `user?.displayName ?? user?.email`: only a missing display name falls back. */
  function AvatarName(user: Option<User>): (r: Option<string>)
    ensures user.None? ==> r.None?
    ensures user.Some? && user.value.displayName.Some? ==> r == user.value.displayName
    ensures user.Some? && user.value.displayName.None? ==> r == user.value.email
  {
    match user
    case None => None
    case Some(u) => if u.displayName.Some? then u.displayName else u.email
  }

  /**
   * The characters `getInitials` upper-cases: the first character of the
   * first space-separated token, followed, when there are several tokens, by
   * the first character of the last one. At most two characters, all of them
   * from the name.
   */
  function InitialLetters(name: string): (r: string)
    ensures |r| <= 2
    ensures forall i :: 0 <= i < |r| ==> r[i] in name
  {
    var names := Split(name, ' ');
    SplitCharsFrom(name, ' ');
    if |names| == 1 then CharAt(names[0], 0)
    else CharAt(names[0], 0) + CharAt(names[|names| - 1], 0)
  }

  /** `getInitials`: "U" for a missing or empty name, else the upper-cased initials. */
  function GetInitials(name: Option<string>, upper: string -> string): (r: string)
    ensures name.None? || name == Some("") ==> r == "U"
    ensures name.Some? && name.value != "" ==> r == upper(InitialLetters(name.value))
  {
    if name.None? || name.value == "" then "U"
    else upper(InitialLetters(name.value))
  }

  /** A name without spaces gives its first character. */
  lemma NoSpace(name: string, upper: string -> string)
    requires name != "" && ' ' !in name
    ensures GetInitials(Some(name), upper) == upper([name[0]])
  {
    SplitNoSeparator(name, ' ');
  }

  /** A name that does not start with a space contributes its first character first. */
  lemma FirstInitialIsFirstCharacter(name: string)
    requires name != "" && name[0] != ' '
    ensures |InitialLetters(name)| >= 1 && InitialLetters(name)[0] == name[0]
  {
    SplitFirstChar(name, ' ');
  }

  /** Two space-free tokens give their two first characters. */
  lemma TwoTokens(first: string, last: string)
    requires ' ' !in first && ' ' !in last
    ensures InitialLetters(first + " " + last) == CharAt(first, 0) + CharAt(last, 0)
  {
    SplitConcat(first, ' ', last);
    SplitNoSeparator(first, ' ');
    SplitNoSeparator(last, ' ');
    assert Split(first + " " + last, ' ') == [first, last];
  }

  /** Whatever lies between the first and the last token is ignored. */
  lemma MiddleIgnored(first: string, middle: string, last: string)
    requires ' ' !in first && ' ' !in last
    ensures InitialLetters(first + " " + middle + " " + last) == CharAt(first, 0) + CharAt(last, 0)
  {
    var tail := middle + " " + last;
    assert first + " " + middle + " " + last == first + [' '] + tail;
    SplitConcat(first, ' ', tail);
    SplitConcat(middle, ' ', last);
    SplitNoSeparator(first, ' ');
    SplitNoSeparator(last, ' ');
    var names := Split(first + " " + middle + " " + last, ' ');
    assert names == [first] + Split(middle, ' ') + [last];
    assert names[0] == first && names[|names| - 1] == last;
  }

  /** A trailing space makes the last token empty, so only the first initial remains. */
  lemma TrailingSpace(first: string)
    requires ' ' !in first
    ensures InitialLetters(first + " ") == CharAt(first, 0)
  {
    SplitConcat(first, ' ', "");
    SplitNoSeparator(first, ' ');
    assert first + " " == first + [' '] + "";
    assert Split(first + " ", ' ') == [first, ""];
  }

  /** An empty display name is used as it is (giving "U"); the email is not consulted. */
  lemma EmptyDisplayNameKept(email: Option<string>, upper: string -> string)
    ensures AvatarName(Some(User(Some(""), email))) == Some("")
    ensures GetInitials(AvatarName(Some(User(Some(""), email))), upper) == "U"
  {
  }

  /** A menu entry: its link and its label (`caption`, since `label` is a Dafny keyword). */
  datatype MenuItem = MenuItem(href: string, caption: string)

  /** `menuItems`, in display order. */
  const MenuItems: seq<MenuItem> := [
    MenuItem("/dashboard", "Resume Matcher"),
    MenuItem("/dashboard/interview-prep", "Interview Prep"),
    MenuItem("/dashboard/history", "History")
  ]

  /** The `isActive` flag of each menu entry, in order: an exact match of the path. */
  function ActiveFlags(pathname: string): (r: seq<bool>)
    ensures |r| == |MenuItems|
    ensures forall k :: 0 <= k < |r| ==> (r[k] <==> pathname == MenuItems[k].href)
  {
    seq(|MenuItems|, k requires 0 <= k < |MenuItems| => pathname == MenuItems[k].href)
  }

  predicate DistinctHrefs(items: seq<MenuItem>)
  {
    forall i, j :: 0 <= i < j < |items| ==> items[i].href != items[j].href
  }

  /** Since the hrefs are distinct, at most one entry is active. */
  lemma AtMostOneActive(pathname: string)
    ensures forall i, j ::
              (0 <= i < |MenuItems| && 0 <= j < |MenuItems| && ActiveFlags(pathname)[i] && ActiveFlags(pathname)[j])
              ==> i == j
  {
    assert DistinctHrefs(MenuItems);
  }

  /** The match is exact, not by prefix: a sub-page of the dashboard activates only its own entry. */
  lemma ExactMatchOnly()
    ensures ActiveFlags("/dashboard/history") == [false, false, true]
    ensures ActiveFlags("/dashboard/history/") == [false, false, false]
  {
    assert "/dashboard/history" != "/dashboard";
    assert "/dashboard/history" != "/dashboard/interview-prep";
    assert "/dashboard/history/" != "/dashboard/history";
  }
}
