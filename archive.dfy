/** Building a repository archive: `clone_github_repo` (app/main.py:172-227)
    and the packaging steps of the clone branch (292-321).  The external
    `git clone`, `shutil.make_archive` and the executor they run on are
    replaced by their outcomes; what is modelled is which temporary
    directories and archive files exist afterwards. */
module Workspace {
  import opened Wrappers
  import opened Http

  /** How the `git clone --depth=1` subprocess ended. */
  datatype CloneRun =
    | Exited(code: int, stderr: string)   // the process ran and returned this code
    | SpawnFailed(cause: string)          // starting or talking to it raised

  predicate CloneSucceeded(run: CloneRun) {
    run.Exited? && run.code == 0
  }

  /** The message the failed clone raises with (app/main.py:213, 221-227):
      a non-zero exit reports git's error output, a failure to run git
      re-raises its own message. */
  function CloneFailureCause(run: CloneRun): string {
    match run
    case Exited(_, stderr) => "Git clone 失败: " + stderr
    case SpawnFailed(cause) => cause
  }

  /** How `shutil.make_archive(repo_dir, "zip", repo_dir)` ended. */
  datatype Packing =
    | Packed(archive: Bytes)   // `<repo_dir>.zip` holds these bytes
    | PackFailed               // make_archive raised; create_zip returned False
    | PackVanished             // reported success but `<repo_dir>.zip` is absent

  const PackFailedCause := "创建压缩文件失败"

  function MissingArchiveCause(repoDir: string): string {
    "未找到压缩文件: " + repoDir + ".zip"
  }

  /** The system temporary directory as far as the clone branch uses it. */
  class Scratch {
    var dirs: set<string>               // live directories made by mkdtemp
    var archives: map<string, Bytes>    // archive files beside them

    constructor ()
      ensures dirs == {} && archives == map[]
    {
      dirs := {};
      archives := map[];
    }

    /** `mkdtemp()` (app/main.py:185) yields `tempDir`, which does not exist
        yet; the clone either succeeds and the directory is returned, or
        fails and the directory is removed again (215-227). */
    method CloneRepo(tempDir: string, run: CloneRun) returns (repo: Result<string>)
      requires tempDir !in dirs
      modifies this
      ensures archives == old(archives)
      ensures repo.Ok? <==> CloneSucceeded(run)
      ensures repo.Ok? ==> repo.value == tempDir && dirs == old(dirs) + {tempDir}
      ensures repo.Err? ==> repo.error == CloneFailureCause(run) && dirs == old(dirs)
    {
      dirs := dirs + {tempDir};
      if CloneSucceeded(run) {
        repo := Ok(tempDir);
      } else {
        dirs := dirs - {tempDir};
        repo := Err(CloneFailureCause(run));
      }
    }

    /** Packaging the clone (app/main.py:292-321).  When `make_archive`
        fails, the exception is raised before `rmtree`, so the clone
        directory is left behind. */
    method Package(repoDir: string, pack: Packing) returns (zip: Result<Bytes>)
      requires repoDir in dirs
      modifies this
      ensures zip.Ok? <==> pack.Packed?
      ensures pack.Packed? ==>
                zip.value == pack.archive
                && dirs == old(dirs) - {repoDir}
                && archives == old(archives)[repoDir + ".zip" := pack.archive]
      ensures pack.PackFailed? ==> zip == Err(PackFailedCause) && dirs == old(dirs) && archives == old(archives)
      ensures pack.PackVanished? ==>
                zip == Err(MissingArchiveCause(repoDir))
                && dirs == old(dirs) - {repoDir} && archives == old(archives)
    {
      if pack.PackFailed? {
        zip := Err(PackFailedCause);
        return;
      }
      if pack.Packed? {
        archives := archives[repoDir + ".zip" := pack.archive];
      }
      dirs := dirs - {repoDir};
      if pack.PackVanished? {
        zip := Err(MissingArchiveCause(repoDir));
      } else {
        zip := Ok(pack.archive);
      }
    }
  }
}
