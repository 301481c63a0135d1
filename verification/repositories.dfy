/**
  `Repository` of borg_sya/borg/__init__.py: where a repository lives and the
  options every borg invocation against it carries.
 */
module Repositories {
  import opened Errors
  import opened Argv

  /**
    The constructor keeps `name`, `path`, `compression` and `remote_path`
    (and drops its `borg` argument). `passphrase` is the attribute
    `borg_env` reads; the constructor as written never sets it.
   */
  datatype Repository = Repository(
    name: string,
    path: string,
    compression: Option<string>,
    remotePath: Option<string>,
    passphrase: Option<string>)

  /** `f'{repo}::{archive}'`: `str(repo)` is the repository path. */
  function Location(repo: Repository, archive: string): (loc: string)
    ensures |loc| == |repo.path| + 2 + |archive|
    ensures loc[..|repo.path|] == repo.path
    ensures loc[|repo.path|..] == "::" + archive
  {
    repo.path + "::" + archive
  }

  /** What `borg_args` means: the remote-path option, then the compression option. */
  function RepoOptions(repo: Repository, create: bool): (args: seq<Arg>)
    ensures AllWellFormed(args)
  {
    (if Truthy(repo.remotePath) then [Opt("--remote-path", repo.remotePath.value)] else [])
    + (if create && Truthy(repo.compression) then [Opt("--compression", repo.compression.value)] else [])
  }

  /** `Repository.borg_args(create)`. */
  function BorgArgs(repo: Repository, create: bool): (args: seq<string>)
    ensures args == Render(RepoOptions(repo, create))
    ensures Parse(args) == RepoOptions(repo, create)
    ensures Truthy(repo.remotePath) <==> |args| >= 2 && args[0] == "--remote-path"
    ensures Truthy(repo.remotePath) ==> args[1] == repo.remotePath.value
    ensures create && Truthy(repo.compression) <==> |args| >= 2 && args[|args| - 2] == "--compression"
    ensures create && Truthy(repo.compression) ==> args[|args| - 1] == repo.compression.value
    ensures |args| == (if Truthy(repo.remotePath) then 2 else 0)
                      + (if create && Truthy(repo.compression) then 2 else 0)
  {
    var args := (if Truthy(repo.remotePath) then ["--remote-path", repo.remotePath.value] else [])
      + (if create && Truthy(repo.compression) then ["--compression", repo.compression.value] else []);
    RepoOptionsRendered(repo, create);
    ParseRender(RepoOptions(repo, create));
    args
  }

  lemma RepoOptionsRendered(repo: Repository, create: bool)
    ensures Render(RepoOptions(repo, create))
         == (if Truthy(repo.remotePath) then ["--remote-path", repo.remotePath.value] else [])
            + (if create && Truthy(repo.compression) then ["--compression", repo.compression.value] else [])
  {
    var remote := if Truthy(repo.remotePath) then [Opt("--remote-path", repo.remotePath.value)] else [];
    var compression := if create && Truthy(repo.compression) then [Opt("--compression", repo.compression.value)] else [];
    RenderAppend(remote, compression);
    if |remote| == 1 {
      RenderSingle(remote[0]);
    }
    if |compression| == 1 {
      RenderSingle(compression[0]);
    }
  }

  const PassphraseVariable := "BORG_PASSPHRASE"

  /** `Repository.borg_env` with the passphrase attribute present. */
  function BorgEnv(repo: Repository): (env: map<string, string>)
    ensures env.Keys <= {PassphraseVariable}
    ensures PassphraseVariable in env <==> Truthy(repo.passphrase)
    ensures PassphraseVariable in env ==> env[PassphraseVariable] == repo.passphrase.value
  {
    var env := map[];
    if Truthy(repo.passphrase) then env[PassphraseVariable := repo.passphrase.value] else env
  }

  /**
    `Repository.borg_env` as written: `__init__` never assigns
    `self.passphrase`, so reading it raises `AttributeError` for every
    repository the class constructs.
   */
  function BorgEnvAsWritten(repo: Repository): (r: Result<map<string, string>>)
    ensures r.Err? && r.error == AttributeError("passphrase")
  {
    Err(AttributeError("passphrase"))
  }

  /** A repository with a passphrase: the corrected property hands it to borg, the code as written fails. */
  lemma BorgEnvAsWrittenLosesPassphrase()
    ensures var repo := Repository("r", "/backup/r", None, None, Some("secret"));
            && BorgEnv(repo) == map[PassphraseVariable := "secret"]
            && BorgEnvAsWritten(repo).Err?
  {
  }
}
