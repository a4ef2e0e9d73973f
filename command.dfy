/**
 * The argument vector `main` passes to the measurement tool (vmaf.py:19-26):
 * the tool's path in the script's directory, the `vmaf` subcommand, and the two
 * video paths behind their flags.
 *
 * The script targets Windows (`ab-av1.exe`, `CTRL_BREAK_EVENT`), so
 * `os.path.join` is modelled as Windows' `ntpath.join` for a relative file name.
 */
module Command {
  import opened Wrappers

  /** The name of the measurement tool's executable. */
  const ToolName: string := "ab-av1.exe"

  predicate IsSep(ch: char)
  {
    ch == '\\' || ch == '/'
  }

  /** The path part of `dir` after a drive letter such as `C:`, as `ntpath.splitdrive` leaves it. */
  function PathPart(dir: string): (p: string)
    ensures |p| <= |dir| && p == dir[|dir| - |p|..]
  {
    if |dir| >= 2 && dir[1] == ':' then dir[2..] else dir
  }

  /**
   * `os.path.join(dir, name)` for a relative `name` without a drive: a backslash
   * goes between the two unless the directory's path part is empty or already
   * ends in a separator.
   */
  function JoinPath(dir: string, name: string): (r: string)
    ensures |r| == |dir| + |name| || (|r| == |dir| + 1 + |name| && r[|dir|] == '\\')
    ensures r[..|dir|] == dir && r[|r| - |name|..] == name
  {
    var p := PathPart(dir);
    if p != [] && !IsSep(p[|p| - 1]) then dir + "\\" + name else dir + name
  }

  /** The separator is added exactly when the directory does not already end in one and is not a bare drive. */
  lemma JoinAddsSeparator(dir: string, name: string)
    ensures |JoinPath(dir, name)| == |dir| + 1 + |name| <==>
      (dir != [] && !IsSep(dir[|dir| - 1]) && !(|dir| == 2 && dir[1] == ':'))
  {
    var p := PathPart(dir);
    if p != [] {
      assert p[|p| - 1] == dir[|dir| - 1];
    }
  }

  /** The command line of vmaf.py:19-26. */
  function VmafCommand(workdir: string, reference: string, distorted: string): (cmd: seq<string>)
    ensures |cmd| == 6
    ensures cmd[0] == JoinPath(workdir, ToolName) && cmd[1] == "vmaf"
    ensures cmd[2] == "--reference" && cmd[3] == reference
    ensures cmd[4] == "--distorted" && cmd[5] == distorted
  {
    [JoinPath(workdir, ToolName), "vmaf", "--reference", reference, "--distorted", distorted]
  }

  /**
   * Reads a list of `flag value` pairs and returns the value given for `flag`,
   * the way an option parser sees the arguments after the subcommand.
   */
  function FlagValue(args: seq<string>, flag: string): (r: Option<string>)
    ensures r.Some? ==> exists i :: 0 <= i < |args| - 1 && args[i] == flag && args[i + 1] == r.value
    decreases |args|
  {
    if |args| < 2 then None
    else if args[0] == flag then Some(args[1])
    else FlagValue(args[2..], flag)
  }

  /**
   * The tool is `ab-av1.exe` in the script's directory, called with the `vmaf`
   * subcommand; the reference path follows its flag, then the distorted path
   * follows its own.  Read as flag-value pairs, each flag gives back its path,
   * whatever the paths contain.  (How the tool's own option parser reads them
   * is not part of this model.)
   */
  lemma CommandRoundTrip(workdir: string, reference: string, distorted: string)
    ensures var cmd := VmafCommand(workdir, reference, distorted);
      && cmd[0][..|workdir|] == workdir
      && cmd[0][|cmd[0]| - |ToolName|..] == ToolName
      && (|cmd[0]| == |workdir| + |ToolName| || |cmd[0]| == |workdir| + 1 + |ToolName|)
      && cmd[1] == "vmaf"
      && cmd[2..] == ["--reference", reference, "--distorted", distorted]
      && FlagValue(cmd[2..], "--reference") == Some(reference)
      && FlagValue(cmd[2..], "--distorted") == Some(distorted)
  {
    var args := VmafCommand(workdir, reference, distorted)[2..];
    assert args[2..] == ["--distorted", distorted];
  }
}
