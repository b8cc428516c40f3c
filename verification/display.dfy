/** `displayNode`: the human-readable form of a node built from its codes and names. */
module Display {
  import opened Options
  import opened Strings

  /** The four optional fields `displayNode` reads; every node kind carries some of them. */
  datatype Fields = Fields(
    codes: Option<seq<string>>,
    code: Option<string>,
    name: Option<string>,
    names: Option<seq<string>>)

  /** The codes shown: `codes` when present (even an empty list), otherwise the single `code`
      when it is truthy (present and non-empty), otherwise none. */
  function Codes(d: Fields): (r: seq<string>) {
    match d.codes
    case Some(cs) => cs
    case None => if d.code.Some? && d.code.value != "" then [d.code.value] else []
  }

  /** The name shown: `names` joined by "/" when present (an empty list is truthy and joins to ""),
      otherwise `name`. An absent name is falsy just like "", so it is represented by "". */
  function Name(d: Fields): (r: string) {
    match d.names
    case Some(ns) => Join(ns, "/")
    case None => d.name.GetOr("")
  }

  /** The codes as they appear in a display string. */
  function CodeText(d: Fields): (r: string) {
    Join(Codes(d), "/")
  }

  /** `displayNode`: "name (codes)" when both a name and codes exist and the codes are not just
      the name itself; the codes alone when there is no name; the bare name otherwise. */
  function DisplayNode(d: Fields): (r: string)
    ensures Name(d) == "" ==> r == CodeText(d)
    ensures Name(d) != "" && (Codes(d) == [] || Codes(d) == [Name(d)]) ==> r == Name(d)
    ensures Name(d) != "" && Codes(d) != [] && Codes(d) != [Name(d)] ==>
              r == Name(d) + " (" + CodeText(d) + ")"
  {
    var codes := Codes(d);
    var name := Name(d);
    if |codes| != 0 && name != "" && (|codes| != 1 || codes[0] != name) then
      name + " (" + Join(codes, "/") + ")"
    else if name == "" then
      Join(codes, "/")
    else
      name
  }

  /** The display is empty exactly when there is no name and the codes are none or a single empty code. */
  lemma DisplayEmptyIff(d: Fields)
    ensures DisplayNode(d) == "" <==>
              Name(d) == "" && (Codes(d) == [] || Codes(d) == [""])
  {
    JoinEmptyIff(Codes(d), "/");
  }

  /** A display of the "name (codes)" form can be taken apart again: the name is its prefix and,
      when no code contains "/", splitting the parenthesised part recovers the code list. */
  lemma DisplayRecoversParts(d: Fields)
    requires Name(d) != "" && Codes(d) != [] && Codes(d) != [Name(d)]
    requires forall k | 0 <= k < |Codes(d)| :: '/' !in Codes(d)[k]
    ensures var r := DisplayNode(d);
            var n := |Name(d)|;
            n + 3 <= |r| && r[..n] == Name(d) && r[n..n + 2] == " (" && r[|r| - 1] == ')' &&
            Split(r[n + 2..|r| - 1], '/') == Codes(d)
  {
    var r := DisplayNode(d);
    var n := |Name(d)|;
    assert r == Name(d) + " (" + CodeText(d) + ")";
    assert r[n + 2..|r| - 1] == CodeText(d);
    SplitJoin(Codes(d), '/');
  }

  /** The fallbacks of the source: a present `codes` list wins over `code` even when empty,
      a falsy `code` yields no codes, and a present `names` list wins over `name`. */
  lemma FieldFallbacks(d: Fields)
    ensures d.codes == Some([]) ==> DisplayNode(d) == Name(d)
    ensures d.codes.None? && d.code.Some? && d.code.value != "" && Name(d) == "" ==>
              DisplayNode(d) == d.code.value
    ensures d.codes.None? && (d.code.None? || d.code == Some("")) ==> DisplayNode(d) == Name(d)
    ensures d.names.Some? && d.name.Some? && d.names.value == [] ==> Name(d) == ""
  {
  }
}
