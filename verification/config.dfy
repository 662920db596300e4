/** The fixed settings the core reads from the central configuration.

    The installation directory (`BASE_DIR`, the parent of the source tree)
    is not a constant of the program but of where it is installed, so the
    directories below are functions of it. Paths are sequences of
    components of an absolute path; the root directory is `[]`. */
module Config {

  const CalculatorMaxPrecision: nat := 15

  /** `MAX_FILE_SIZE`, 10 MiB, used as the file manager's byte limit. */
  const MaxFileSize: nat := 10 * 1024 * 1024

  const SearchMaxResults: nat := 100
  const SearchDefaultLimit: nat := 10

  const AllowedExtensions: set<string> := {".txt", ".json", ".md", ".py", ".yaml", ".yml"}
  const BlockedExtensions: set<string> := {".exe", ".bat", ".sh", ".cmd"}

  function DataDir(base: seq<string>): seq<string> {
    base + ["data"]
  }

  function AssetsDir(base: seq<string>): seq<string> {
    base + ["assets"]
  }

  /** `FILE_MANAGER_SAFE_DIRECTORIES`, in the order they are tried. */
  function SafeDirectories(base: seq<string>): seq<seq<string>> {
    [DataDir(base), AssetsDir(base)]
  }

  /** `ALLOWED_WRITE_PATHS`: the data directory only. */
  function AllowedWritePaths(base: seq<string>): seq<seq<string>> {
    [DataDir(base)]
  }
}
