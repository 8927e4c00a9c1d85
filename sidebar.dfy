/**
 * The greeting of FrontEnd/src/components/layout/Sidebar.jsx: the user's name split at
 * its spaces into a first name and the rest. The name is None when there is no user or
 * the user has no name.
 */
module Sidebar {
  import opened Wrappers
  import opened Js

  /** `user?.name?.split(' ') || []`. */
  function NameParts(name: Option<string>): seq<string> {
    if name.None? then [] else Split(name.value, ' ')
  }

  /** `userNameParts[0] || ''`. */
  function FirstName(name: Option<string>): string {
    var parts := NameParts(name);
    if |parts| == 0 then "" else parts[0]
  }

  /** `userNameParts.slice(1).join(' ') || ''`. */
  function LastName(name: Option<string>): string {
    var parts := NameParts(name);
    if |parts| <= 1 then "" else Join(parts[1..], " ")
  }

  /** With no name both parts are empty. */
  lemma NoNameNoParts()
    ensures FirstName(None) == "" && LastName(None) == ""
  {
  }

  /** The first name is the text before the first space, and has none itself. */
  lemma FirstNameBeforeSpace(name: string)
    ensures ' ' !in FirstName(Some(name))
    ensures ' ' !in name ==> FirstName(Some(name)) == name
    ensures ' ' in name ==> exists i :: 0 <= i < |name| && name[i] == ' ' && ' ' !in name[..i]
                                          && FirstName(Some(name)) == name[..i]
  {
    SplitHead(name, ' ');
  }

  /** A name without a space has no last name. */
  lemma OneWordNoLastName(name: string)
    requires ' ' !in name
    ensures LastName(Some(name)) == "" && FirstName(Some(name)) == name
  {
    SplitHead(name, ' ');
  }

  /** For a name with a space, first name, a space and last name give the name back. */
  lemma NameRecombines(name: string)
    requires ' ' in name
    ensures FirstName(Some(name)) + " " + LastName(Some(name)) == name
  {
    CountAbsent(name, ' ');
    JoinSplit(name, ' ');
    var parts := Split(name, ' ');
    assert |parts| > 1;
    assert Join(parts, [' ']) == parts[0] + [' '] + Join(parts[1..], [' ']);
    assert [' '] == " ";
  }
}
