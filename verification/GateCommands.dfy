/** When a recorded gate command is the one expected (scripts/agentflow/identity.py,
    `_same_command`): the comparison the code makes, and what it means. */
module GateCommands {
  import opened Text

  type Command = seq<string>

  // ---- the comparison ----------------------------------------------------------

  function LastRun(p: string): string
    decreases |p|
  {
    if p == [] || p[|p| - 1] == '/' then [] else LastRun(p[..|p| - 1]) + [p[|p| - 1]]
  }

  /** `Path(p).name` of a `/`-separated path. */
  function LastComponent(p: string): string
    decreases |p|
  {
    if p == [] then []
    else if p[|p| - 1] == '/' || LastRun(p) == "." then LastComponent(p[..|p| - 1])
    else LastRun(p)
  }

  function Exe(p: string): string {
    var name := Lower(LastComponent(Slashed(p)));
    if EndsWith(name, ".exe") then name[..|name| - 4] else name
  }

  predicate SameCommand(recorded: Command, expected: Command) {
    recorded != [] && |recorded| == |expected| && Exe(recorded[0]) == Exe(expected[0]) && recorded[1..] == expected[1..]
  }

  // ---- what it means -------------------------------------------------------------

  /** The last part that is a name. */
  function LastName(parts: seq<string>): string {
    if parts == [] then ""
    else if parts[|parts| - 1] in ["", "."] then LastName(parts[..|parts| - 1])
    else parts[|parts| - 1]
  }

  /** The file name of a path: of the parts between slashes of either kind, the last one that
      is neither empty nor a dot. */
  function FileName(p: string): string {
    LastName(Split(Slashed(p), '/'))
  }

  /** The file name without one `.exe`, in any case of its letters. */
  function Program(p: string): string {
    var name := FileName(p);
    if |name| >= 4 && SameLetters(name[|name| - 4..], ".exe") then name[..|name| - 4] else name
  }

  /** The same program, up to case, called with the same arguments. */
  predicate SameScript(a: Command, b: Command) {
    && |a| == |b| > 0
    && SameLetters(Program(a[0]), Program(b[0]))
    && forall i :: 1 <= i < |a| ==> a[i] == b[i]
  }

  lemma {:induction false} LastRunIsLastPart(p: string)
    ensures LastRun(p) == Split(p, '/')[|Split(p, '/')| - 1]
    decreases |p|
  {
    if p != [] {
      var rest, c := p[..|p| - 1], p[|p| - 1];
      assert p == rest + [c];
      SplitSnoc(rest, c, '/');
      if c != '/' {
        LastRunIsLastPart(rest);
      }
    }
  }

  lemma {:induction false} LastComponentIsLastName(p: string)
    ensures LastComponent(p) == LastName(Split(p, '/'))
    decreases |p|
  {
    if p != [] {
      var rest, c := p[..|p| - 1], p[|p| - 1];
      var parts := Split(rest, '/');
      assert p == rest + [c];
      SplitSnoc(rest, c, '/');
      LastRunIsLastPart(p);
      LastComponentIsLastName(rest);
      if c == '/' {
        assert (parts + [""])[..|parts|] == parts;
      } else if LastRun(p) == "." {
        assert parts[|parts| - 1] + [c] == ".";
        assert Split(p, '/')[..|parts| - 1] == parts[..|parts| - 1];
      }
    }
  }

  lemma ExeIsLoweredProgram(p: string)
    ensures Exe(p) == Lower(Program(p))
  {
    LastComponentIsLastName(Slashed(p));
    var name := FileName(p);
    if |name| >= 4 {
      var tail := name[|name| - 4..];
      assert Lower(name)[|name| - 4..] == Lower(tail) && Lower(name)[..|name| - 4] == Lower(name[..|name| - 4]);
      assert Lower(".exe") == ".exe";
      LowerForgetsCase(tail, ".exe");
    }
  }

  /** The code's comparison accepts exactly the same script. */
  lemma SameCommandMeansSameScript(recorded: Command, expected: Command)
    ensures SameCommand(recorded, expected) <==> SameScript(recorded, expected)
  {
    if recorded != [] && |recorded| == |expected| {
      ExeIsLoweredProgram(recorded[0]);
      ExeIsLoweredProgram(expected[0]);
      LowerForgetsCase(Program(recorded[0]), Program(expected[0]));
      assert (forall i :: 1 <= i < |recorded| ==> recorded[i] == expected[i]) <==> recorded[1..] == expected[1..] by {
        assert forall i :: 1 <= i < |recorded| ==> recorded[i] == recorded[1..][i - 1];
        assert forall i :: 1 <= i < |expected| ==> expected[i] == expected[1..][i - 1];
      }
    }
  }

  // ---- what a file name is -------------------------------------------------------

  /** Whatever folder precedes it, and whatever slashes and dots follow, the name is the name. */
  lemma FileNameIsTheName(dir: string, name: string)
    requires name !in ["", "."] && forall c :: c in name ==> c != '/' && c != '\\'
    ensures FileName(dir + "/" + name) == name && FileName(name) == name
    ensures FileName(dir + "/") == FileName(dir) && FileName(dir + "/.") == FileName(dir)
  {
    LastPart(dir, name);
    LastPart(dir, "");
    LastPart(dir, ".");
    assert dir + "/" + "" == dir + "/" && dir + "/" + "." == dir + "/.";
    PlainName(name);
    assert Slashed(name) == name by {
      assert forall i :: 0 <= i < |name| ==> name[i] in name;
    }
    assert [name][|[name]| - 1] == name;
  }

  lemma LastPart(dir: string, name: string)
    requires forall c :: c in name ==> c != '/' && c != '\\'
    ensures FileName(dir + "/" + name) == if name in ["", "."] then FileName(dir) else name
  {
    assert Slashed(dir + "/" + name) == Slashed(dir) + "/" + name by {
      assert forall i :: 0 <= i < |name| ==> name[i] in name;
    }
    SplitAfter(Slashed(dir), name);
    var parts := Split(Slashed(dir), '/');
    assert (parts + [name])[..|parts|] == parts;
  }

  lemma {:induction false} PlainName(name: string)
    requires forall c :: c in name ==> c != '/'
    ensures Split(name, '/') == [name]
  {
    if name != [] {
      assert name[0] in name && forall c :: c in name[1..] ==> c in name;
      PlainName(name[1..]);
      assert [name[0]] + name[1..] == name;
    }
  }

  lemma {:induction false} SplitAfter(dir: string, name: string)
    requires forall c :: c in name ==> c != '/'
    ensures Split(dir + "/" + name, '/') == Split(dir, '/') + [name]
  {
    if dir == [] {
      PlainName(name);
      assert dir + "/" + name == ['/'] + name && (['/'] + name)[1..] == name;
    } else {
      SplitAfter(dir[1..], name);
      assert (dir + "/" + name)[1..] == dir[1..] + "/" + name;
    }
  }
}
