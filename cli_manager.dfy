/** The command-line front end: project-name validation, argument validation and the
    choice of command from the parsed arguments. */
module CliManager {

  import opened Wrappers
  import Text

  /** The parsed arguments of the mutually exclusive action group; an absent option is
      None (or false for the two flags). */
  datatype Args = Args(
    createProject: Option<string>,
    project: Option<string>,
    compare: Option<seq<string>>,
    listProjects: bool,
    testVisuals: bool)

  datatype Command =
    | Create(name: string)
    | AnalyzeProject(name: string)
    | CompareProjects(names: seq<string>)
    | ListProjects
    | TestVisuals
    | NoCommand

  predicate IsNameChar(c: char) {
    ('a' <= c <= 'z') || ('A' <= c <= 'Z') || ('0' <= c <= '9') || c == '_'
  }

  /** re.match(r'^[a-zA-Z0-9_]+$', name): one or more name characters up to the end, where
      `$` also matches just before a final newline. */
  predicate IsValidProjectName(name: string) {
    var n := Text.RunLen(name, IsNameChar);
    n >= 1 && (n == |name| || (n == |name| - 1 && name[n] == '\n'))
  }

  /** Valid exactly when the name is non-empty and all name characters, possibly followed
      by one newline. */
  lemma ValidProjectNameIff(name: string)
    ensures IsValidProjectName(name) <==>
      (|name| >= 1 && Text.All(name, IsNameChar)) ||
      (|name| >= 2 && name[|name| - 1] == '\n' && Text.All(name[..|name| - 1], IsNameChar))
  {
    Text.RunLenSpec(name, IsNameChar);
    var n := Text.RunLen(name, IsNameChar);
    if |name| >= 1 && Text.All(name, IsNameChar) {
      assert forall c :: c in name ==> IsNameChar(c);
      Text.RunLenPrefix(name, [], IsNameChar);
      assert name + [] == name;
    }
    if |name| >= 2 && name[|name| - 1] == '\n' && Text.All(name[..|name| - 1], IsNameChar) {
      var a := name[..|name| - 1];
      assert forall c :: c in a ==> IsNameChar(c);
      assert a + [name[|name| - 1]] == name;
      Text.RunLenPrefix(a, [name[|name| - 1]], IsNameChar);
    }
    if IsValidProjectName(name) {
      if n == |name| {
        assert name[..n] == name;
      } else {
        assert name[..|name| - 1] == name[..n];
      }
    }
  }

  /** An underscore name is accepted, with or without a final newline. */
  lemma ProjectNamesAccepted()
    ensures IsValidProjectName("meu_estudo")
    ensures IsValidProjectName("meu_estudo\n")
  {
    var name := "meu_estudo";
    assert Text.All(name, IsNameChar) by {
      assert forall k :: 0 <= k < |name| ==> IsNameChar(name[k]);
    }
    ValidProjectNameIff(name);
    var line := name + "\n";
    assert line[..|line| - 1] == name;
    ValidProjectNameIff(line);
  }

  /** A name with a space or a hyphen is refused, and so is the empty name. */
  lemma ProjectNamesRefused()
    ensures !IsValidProjectName("meu estudo")
    ensures !IsValidProjectName("meu-estudo")
    ensures !IsValidProjectName("")
  {
    assert !IsValidProjectName("meu estudo") by {
      ValidProjectNameIff("meu estudo");
      assert !IsNameChar("meu estudo"[3]);
    }
    assert !IsValidProjectName("meu-estudo") by {
      ValidProjectNameIff("meu-estudo");
      assert !IsNameChar("meu-estudo"[3]);
    }
  }

  /** An option's value is truthy when given and non-empty. */
  predicate Given<T>(o: Option<seq<T>>) {
    o.Some? && o.value != []
  }

  /** validate_args */
  predicate ValidateArgs(a: Args) {
    if Given(a.createProject) && !IsValidProjectName(a.createProject.value) then false
    else if Given(a.compare) && |a.compare.value| < 2 then false
    else true
  }

  /** The arguments are accepted exactly when a given create name is valid and a given
      comparison names at least two projects. */
  lemma ValidateArgsIff(a: Args)
    ensures ValidateArgs(a) <==>
      (Given(a.createProject) ==> IsValidProjectName(a.createProject.value)) &&
      (Given(a.compare) ==> |a.compare.value| >= 2)
  {
  }

  /** get_command */
  function GetCommand(a: Args): Command {
    if Given(a.createProject) then Create(a.createProject.value)
    else if Given(a.project) then AnalyzeProject(a.project.value)
    else if Given(a.compare) then CompareProjects(a.compare.value)
    else if a.listProjects then ListProjects
    else if a.testVisuals then TestVisuals
    else NoCommand
  }

  /** Exactly one action present, as the required mutually exclusive group guarantees. */
  predicate OneAction(a: Args) {
    (if a.createProject.Some? then 1 else 0) + (if a.project.Some? then 1 else 0) +
    (if a.compare.Some? then 1 else 0) + (if a.listProjects then 1 else 0) +
    (if a.testVisuals then 1 else 0) == 1
  }

  /** Priority create > analyze > compare > list > test: a higher action wins whatever
      else is present; there is no command exactly when nothing truthy is given. With
      exactly one action the command is that action unless its value is empty. */
  lemma CommandPriority(a: Args)
    ensures Given(a.createProject) ==> GetCommand(a) == Create(a.createProject.value)
    ensures !Given(a.createProject) && Given(a.project) ==> GetCommand(a) == AnalyzeProject(a.project.value)
    ensures GetCommand(a).CompareProjects? ==> !Given(a.createProject) && !Given(a.project) && Given(a.compare)
    ensures GetCommand(a) == NoCommand <==>
      !Given(a.createProject) && !Given(a.project) && !Given(a.compare) && !a.listProjects && !a.testVisuals
    ensures OneAction(a) && a.listProjects ==> GetCommand(a) == ListProjects
    ensures OneAction(a) && a.testVisuals ==> GetCommand(a) == TestVisuals
    ensures OneAction(a) && a.compare.Some? ==>
      GetCommand(a) == if a.compare.value == [] then NoCommand else CompareProjects(a.compare.value)
  {
  }

  /** Accepted arguments that create a project carry a valid name; accepted arguments that
      compare carry at least two projects. */
  lemma ValidatedCommand(a: Args)
    requires ValidateArgs(a)
    ensures GetCommand(a).Create? ==> IsValidProjectName(GetCommand(a).name)
    ensures GetCommand(a).CompareProjects? ==> |GetCommand(a).names| >= 2
  {
  }
}
