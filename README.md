# FastMCP context installer: configuration merge and onboarding latch

This project models the core of a small editor extension. The extension registers one remote MCP
server in two `mcp.json` files: the per-workspace `<folder>/.vscode/mcp.json` and the per-user
file under the platform's settings directory. It runs that registration once, on first
activation, gated by a persisted flag.

The model has six modules:

- `Json`: parsed JSON values, JavaScript truthiness, and property access.
- `Paths`: `path.join`, `path.dirname`, the three platform branches of `getUserMcpJsonPath`,
  and `getMcpJsonPath`.
- `McpConfig`: the three constants and the merge that `addFastMcpServer` applies to each loaded
  document. The merge does three things:
  - it defaults `servers` to `{}` when that field is falsy;
  - it defaults `inputs` to `[]` when that field is not an array;
  - it installs `{url, type}` under the server key when the entry is missing or its `url`
    differs.
- `Setup`: the file system as a value (`FsState`), `readMcpJson` (`Load`), and one workspace or
  user block as a function (`ApplyTarget`). `ApplyAll` runs the blocks in order: it stops at an
  exception from `writeFileSync` and accumulates `didAdd`.
- `Extension`: class `Host`. Its fields are the file map, the set of existing directories, the
  persisted `fastmcp.didRunSetup` value, and ghost counters of writes and setup runs. Its methods
  are `readMcpJson`, `writeMcpJson`, one target block, `addFastMcpServer`, `activate`, and the
  reset command. `ReadMcpJson`, `InstallInto`, `AddFastMcpServer` and `Activate` are proved
  against the `Setup` functions. `WriteMcpJson` and `ResetOnboarding` state their new fields
  directly.
- `Wrappers`: the `Option` type.

Modelling choices:

- A file's content is `Option<Json>`. `None` means the file exists but its text does not parse.
- Writing a document stores the document itself, which assumes that parsing what
  `JSON.stringify` produced gives it back.
- Directories are modelled so that the two branches can differ. Only the workspace branch
  creates its directory (`mkdirSync`). So writing the user file throws when the user settings
  directory does not exist.
- That exception escapes `addFastMcpServer` and then `activate`. The onboarding flag is then
  never set, and the next activation retries the setup.

Two consequences of the code are kept as they are:

- Change detection compares `url` only (src/extension.ts:83, 101). An entry with the right `url`
  keeps whatever `type` it has, so the server key need not hold exactly `{url, type}`.
- Only the workspace branch calls `mkdirSync` (src/extension.ts:85). The user branch writes into
  whatever directory exists, and throws when the user settings directory is missing.

## Model

| member | source | states |
|---|---|---|
| `McpConfig.Merge` | src/extension.ts:80-87 | The result is again a well-shaped document, and the server key holds an entry with the server's url. `changed` holds exactly when no entry with that url was there, whatever its `type`. A change installs exactly `{url: SERVER_URL, type: SERVER_TYPE}`. Otherwise the server map is untouched. |
| `McpConfig.NeedsEntry` | src/extension.ts:83 | The test "`servers[KEY]` is falsy, or its `url` is not `SERVER_URL`" holds exactly when the map lacks an object entry whose `url` is the server url. |
| `McpConfig.MergeLeavesRestAlone` | src/extension.ts:80-87 | Every server key other than the server key keeps its presence and value. Every top-level property other than `servers` and `inputs` keeps its value. `inputs` becomes the old array verbatim when it was an array, and `[]` otherwise. |
| `McpConfig.MergeIdempotent` | src/extension.ts:83-90 | Merging a merged document reports no change and returns it unchanged. |
| `McpConfig.MergeEmpty` | src/extension.ts:80-87 | `{}` merges, as a change, into exactly `{servers: {KEY: {url, type}}, inputs: []}`. |
| `McpConfig.StaleTypeIsKept` | src/extension.ts:101-103 | An entry with the right url and `type: "sse"` is kept as it is, and no change is reported (url-only detection). |
| `McpConfig.OtherServerAndInputsKept` | src/extension.ts:98-102 | `{"servers":{"other":{…}},"inputs":["keep"]}` gains the entry and keeps `other` and `"keep"` verbatim. |
| `Paths.VscodeDir` | src/extension.ts:84 | `path.join(folder, '.vscode')` is the folder, the separator and `.vscode`. |
| `Json.Truthy` | src/extension.ts:80-83 | Exactly four parsed values are falsy: `null`, `false`, `0` and `""`. Lines 98, 101 and 145 apply the same test. |
| `Paths.McpJsonPath` | src/extension.ts:12-14 | The workspace file is the `.vscode` directory of the folder, plus the separator, plus `mcp.json`. |
| `Paths.UserMcpJsonPath` | src/extension.ts:16-25 | On each platform the user file is the user settings directory (`Library/Application Support/Code/User`, `AppData/Roaming/Code/User` or `.config/Code/User` under the home directory) plus the separator, plus `mcp.json`. |
| `Paths.Join` | src/extension.ts:13 | A joined path starts with its first segment and ends with its last. |
| `Paths.WorkspaceFileInVscodeDir` | src/extension.ts:84-88 | The workspace file is `<folder>/.vscode` plus separator plus `mcp.json`. Its directory name is the directory the branch creates. |
| `Paths.UserFileInConfigDir` | src/extension.ts:16-25 | On each platform the user file lies directly in the user settings directory. |
| `Paths.UserPathNonEmpty` | src/extension.ts:94-95 | The user path is never empty, so the `if (userMcpJsonPath)` branch is always taken. |
| `Setup.Load` | src/extension.ts:27-37 | A parsed file loads as its content. A missing or unparseable file loads as `{}`. On well-shaped files every load is a document the merge handles. |
| `McpConfig.ServersOf` | src/extension.ts:80 | An object under `servers` is used as it is. A missing or falsy `servers` becomes `{}`. The user block repeats this at line 98. |
| `McpConfig.InputsOf` | src/extension.ts:81 | An array under `inputs` is kept verbatim. Anything else, or nothing, becomes `[]`. The user block repeats this at line 99. |
| `Setup.Targets` | src/extension.ts:74-101 | The run visits the first workspace folder's file when a folder is open, then always the user file. |
| `Setup.ApplyTarget` | src/extension.ts:78-90 | A block that completes reports a change exactly when it wrote its file, and then it wrote only that file. A failed write names the file and leaves every file as it was. A directory is added only when the document changed and the block has one to create, so the user block never adds one. |
| `Setup.WorkspaceTarget` | src/extension.ts:76-85 | The workspace block loads and writes `getMcpJsonPath(folder)`, and the directory it creates is exactly that file's parent. |
| `Setup.UserTarget` | src/extension.ts:94-102 | The user block loads and writes `getUserMcpJsonPath()`, creates no directory, and that file's parent is the user settings directory. |
| `Setup.Then` | src/extension.ts:89-104 | After a completed workspace block, the run has the next block's state and both blocks' writes in order. An exception in the next block ends the run with that exception. Otherwise `didAdd` is true when either block set it. |
| `Setup.TargetBlock` | src/extension.ts:83-89 | A block changes something exactly when its file does not already hold the entry. A file that holds the entry is neither written nor changed. What the block writes is the merged loaded document. Afterwards the file holds the entry. The write fails exactly when the file's directory neither exists nor is created by the block. |
| `Setup.FreshFileGetsMinimalDocument` | src/extension.ts:27-37 | A missing or unparseable file loads as `{}`. It is written with exactly `{servers: {KEY: {url, type}}, inputs: []}`. |
| `Setup.ApplyAll` | src/extension.ts:71-124 | When the run completes, the returned `didAdd` is true exactly when some file was written. All parsed files stay well shaped. |
| `Setup.DidAddIffSomeLacked` | src/extension.ts:83-124 | A completed run returns `didAdd == true` exactly when some target file lacked the entry before the run. |
| `Setup.RunTouchesOnlyWrittenFiles` | src/extension.ts:83-104 | Only target files are written. Every written file holds the entry afterwards. Every file not written keeps its presence and content. |
| `Setup.WorkspaceStep` | src/extension.ts:75-91 | The workspace block, or an empty step when no folder is open, keeps all parsed files well shaped. |
| `Setup.RunOfEnv` | src/extension.ts:73-106 | The run is the workspace step, then, unless its write threw, the user block. |
| `Setup.RunInstallsAll` | src/extension.ts:87-103 | After a run that completes, every target file holds the entry. |
| `Setup.RunOnInstalledIsNoop` | src/extension.ts:83-105 | When every target file already holds the entry, the run writes nothing, changes nothing and returns `didAdd == false`. |
| `Setup.SecondRunIsNoop` | src/extension.ts:71-106 | Idempotence. Running the install again on the file system a completed run produced writes nothing, changes nothing and reports no change. |
| `Setup.WorkspaceWriteSucceeds` | src/extension.ts:84-88 | The workspace block never throws, because it creates the directory it writes into. |
| `Setup.FailureOnlyAtUserFile` | src/extension.ts:101-104 | A run can fail only at the user file, and only when the user settings directory did not exist. |
| `Setup.UserOnlyFailsIffDirMissing` | src/extension.ts:94-105 | With no workspace open, the run fails exactly when the user file lacks the entry and its directory is missing. |
| `Setup.TargetKeepsParents` | src/extension.ts:84-90 | When every file lies in an existing directory, a block keeps that so. A block whose file already exists never throws. |
| `Setup.RunKeepsParents` | src/extension.ts:71-106 | A whole run keeps every file in an existing directory. |
| `Setup.ExistingUserFileNeverFails` | src/extension.ts:94-105 | When every file lies in an existing directory and the user file exists, the run completes. |
| `Extension.Host.ReadMcpJson` | src/extension.ts:27-37 | Returns the file's parsed document. A missing or unparseable file gives `{}`. |
| `Extension.Host.WriteMcpJson` | src/extension.ts:39-42 | Stores the document and counts the write when the file's directory exists. Otherwise it changes nothing. |
| `Extension.Host.InstallInto` | src/extension.ts:78-90 | One block on the host. The new files, directories, write count and report are those of `ApplyTarget`. |
| `Extension.Host.AddFastMcpServer` | src/extension.ts:71-125 | The new files, directories and report are those of `ApplyAll` over the present targets. The write count grows by the number of files written. The flag is not touched. |
| `Extension.Host.Activate` | src/extension.ts:135-150 | Setup runs exactly when the flag is not `true`. Without setup, nothing changes. With setup, the run is `addFastMcpServer`, and the flag becomes `true` only if that run completed; otherwise the flag keeps its old value. |
| `Extension.Host.ResetOnboarding` | src/extension.ts:129-131 | The flag becomes `false`, and nothing else changes. |
| `Extension.OnboardingLifecycle` | src/extension.ts:144-150 | From an unset flag, with the user settings directory present, the activations go like this. The first runs the setup and sets the flag. A second runs none. After the reset, a third runs the setup and writes nothing. |
| `Extension.FailedSetupIsRetried` | src/extension.ts:145-149 | A scenario with no folder open: when the user write throws, the flag stays unset and the next activation runs the setup again. The general retry, for any environment, is `Host.Activate`'s own contract: the flag becomes `true` only after a completed run. |
| `Extension.FlagSet` | src/extension.ts:135-145 | The test `!didRun` skips the setup exactly when the stored value is `true`. A missing value (`undefined`) and a reset `false` both start it. |

## Left out

- `src/welcomeHtml.ts`: a static HTML template with one interpolation, with no logic to verify.
- The welcome webview, the `setTimeout` that opens it, and all notifications: host UI with no effect on the files or the flag.
- The webview's message handler (src/extension.ts:58-62): its only effect is to run the `fastmcpContext.addServer` command, which is `Extension.Host.AddFastMcpServer`. The message channel itself is host UI.
- Command registration and `deactivate`: host plumbing. The manual `fastmcpContext.addServer` command is `Host.AddFastMcpServer` itself.
- The `mcp.servers.start` and `mcp.servers.restart` requests: foreign host commands whose errors the code swallows. They change neither the files nor the returned `didAdd`.
- JSON text: `JSON.parse` and `JSON.stringify(…, null, 2)` are not modelled. Numbers too large for a double, which parse as `Infinity` and are written back as `null`, are outside the model. A file holds its parsed value, or `None` when its text does not parse. The serialised layout and the key order of objects are not represented.
- `McpConfig.Merge`, `Setup.ApplyAll`: require every parsed document to be an object whose truthy `servers` is an object (`WellShaped`). On other roots the code throws (on `null`), or, for arrays and primitives, relies on JavaScript property rules outside this model.
- Read failures other than a missing file or unparseable text (for example, permissions) are not modelled. The code's `catch` turns them into `{}` too.
- Write failures other than a missing parent directory (permissions, disk full) are not modelled.
- `Setup.WorkspaceWriteSucceeds`: assumes that the open workspace folder exists on disk, so `mkdirSync` of its `.vscode` directory succeeds. A folder deleted or moved while open, or a folder listed by a workspace file but missing on disk, makes the non-recursive `mkdirSync` at src/extension.ts:85 throw. `addFastMcpServer` then rejects before the user block, and `activate` leaves the flag unset. The model does not represent that failure, so `Setup.WorkspaceWriteSucceeds` and `Setup.FailureOnlyAtUserFile` hold only under this assumption.
- `Paths.Join`: models `path.join` of plain segments. It does not normalise duplicate separators or `..`. `os.homedir()`, `process.platform` and the workspace folder list are inputs (`Env`).
- `Paths.Dirname`: gives `""` rather than the root for a file directly under the root. No path the program builds has that shape.
- `Extension.Host.AddFastMcpServer`: the class counts writes (`writeCount`). The `Setup` functions list which paths were written and in what order.
- `FsState` does not require every file to lie in an existing directory. States that break this are allowed, and in them writing an existing file throws. `Setup.ParentsExist` states the invariant; `Setup.TargetKeepsParents` and `Setup.RunKeepsParents` prove that runs keep it.
- Concurrency: a re-entrant or concurrent `addFastMcpServer` is out of scope. The host dispatches one callback at a time.
