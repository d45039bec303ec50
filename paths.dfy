/** Where the two mcp.json files live: `getMcpJsonPath`, `getUserMcpJsonPath`,
    and the `path.join` / `path.dirname` operations they rely on. */
module Paths {
  import opened Wrappers

  type Path = string

  /** The values of `process.platform` the program tells apart; `Other`
      stands for Linux and every remaining platform (the final `else`). */
  datatype Platform = Darwin | Win32 | Other

  /** The separator the `path` module uses on each platform. */
  function Sep(p: Platform): char {
    if p == Win32 then '\\' else '/'
  }

  /** `path.join` of non-empty segments that need no normalisation:
      the segments with one separator between neighbours. */
  function Join(sep: char, parts: seq<string>): (r: Path)
    requires |parts| > 0
    ensures parts[0] <= r
    ensures |parts[|parts| - 1]| <= |r| && parts[|parts| - 1] == r[|r| - |parts[|parts| - 1]|..]
  {
    if |parts| == 1 then parts[0]
    else Join(sep, parts[..|parts| - 1]) + [sep] + parts[|parts| - 1]
  }

  /** The position of the last occurrence of `c` in `s`, if any. */
  function LastIndexOf(s: string, c: char): (r: Option<nat>)
    ensures r.Some? ==> r.value < |s| && s[r.value] == c
    ensures r.Some? ==> forall i :: r.value < i < |s| ==> s[i] != c
    ensures r.None? ==> forall i :: 0 <= i < |s| ==> s[i] != c
  {
    if |s| == 0 then None
    else if s[|s| - 1] == c then Some(|s| - 1)
    else LastIndexOf(s[..|s| - 1], c)
  }

  /** `path.dirname`: everything before the last separator, or "." when
      there is none. */
  function Dirname(p: Path, sep: char): Path {
    match LastIndexOf(p, sep)
    case Some(i) => p[..i]
    case None => "."
  }

  /** Appending a separator and a plain file name, then taking the directory
      name, gives back the directory. */
  lemma DirnameOfChild(dir: Path, sep: char, name: string)
    requires sep !in name
    ensures Dirname(dir + [sep] + name, sep) == dir
  {
    var p := dir + [sep] + name;
    assert p[|dir|] == sep;
    assert LastIndexOf(p, sep) == Some(|dir|);
    assert p[..|dir|] == dir;
  }

  /** `path.join(folder, '.vscode')`: the directory the workspace branch creates. */
  function VscodeDir(folder: Path, sep: char): (r: Path)
    ensures r == folder + [sep] + ".vscode"
  {
    assert [folder, ".vscode"][..1] == [folder];
    assert Join(sep, [folder]) == folder;
    Join(sep, [folder, ".vscode"])
  }

  /** `getMcpJsonPath`: `<folder>/.vscode/mcp.json`. */
  function McpJsonPath(folder: Path, sep: char): (r: Path)
    ensures r == VscodeDir(folder, sep) + [sep] + "mcp.json"
  {
    assert [folder, ".vscode", "mcp.json"][..2] == [folder, ".vscode"];
    Join(sep, [folder, ".vscode", "mcp.json"])
  }

  /** The directory segments below the home directory that hold the user-level
      settings on each platform. */
  function UserDirParts(p: Platform): seq<string> {
    match p
    case Darwin => ["Library", "Application Support", "Code", "User"]
    case Win32 => ["AppData", "Roaming", "Code", "User"]
    case Other => [".config", "Code", "User"]
  }

  /** The directory that holds the user-level mcp.json. */
  function UserConfigDir(p: Platform, home: Path): Path {
    Join(Sep(p), [home] + UserDirParts(p))
  }

  /** `getUserMcpJsonPath`: a path for every platform, never undefined. */
  function UserMcpJsonPath(p: Platform, home: Path): (r: Path)
    ensures r == UserConfigDir(p, home) + [Sep(p)] + "mcp.json"
  {
    assert ([home] + UserDirParts(p) + ["mcp.json"])[..|UserDirParts(p)| + 1] == [home] + UserDirParts(p);
    Join(Sep(p), [home] + UserDirParts(p) + ["mcp.json"])
  }

  /** The workspace file lies directly in the directory the workspace branch
      creates, so writing it after that `mkdirSync` finds its parent. */
  lemma WorkspaceFileInVscodeDir(folder: Path, sep: char)
    requires sep == '/' || sep == '\\'
    ensures McpJsonPath(folder, sep) == VscodeDir(folder, sep) + [sep] + "mcp.json"
    ensures Dirname(McpJsonPath(folder, sep), sep) == VscodeDir(folder, sep)
  {
    DirnameOfChild(VscodeDir(folder, sep), sep, "mcp.json");
  }

  /** The user path is never the empty string, so `if (userMcpJsonPath)`
      always holds. */
  lemma UserPathNonEmpty(p: Platform, home: Path)
    ensures |UserMcpJsonPath(p, home)| > 0
  {
  }

  /** The user file lies directly in the user settings directory. */
  lemma UserFileInConfigDir(p: Platform, home: Path)
    ensures UserMcpJsonPath(p, home) == UserConfigDir(p, home) + [Sep(p)] + "mcp.json"
    ensures Dirname(UserMcpJsonPath(p, home), Sep(p)) == UserConfigDir(p, home)
  {
    DirnameOfChild(UserConfigDir(p, home), Sep(p), "mcp.json");
  }
}
