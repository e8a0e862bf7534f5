/** Names and locations the program fixes in its configuration, all below the
    application's base directory (the directory holding the program). */
module Config {
  import opened Paths

  const DefaultFolderName: string := "files"
  const FolderEnvVar: string := "FLASK_SERVE_FOLDER"

  function LogDir(baseDir: Path): Path { baseDir + ["logs"] }

  function ConnectedIpsLogPath(baseDir: Path): Path { LogDir(baseDir) + ["connected_ips.log"] }

  function BlockedIpsFilePath(baseDir: Path): Path { LogDir(baseDir) + ["blocked_ips.txt"] }

  function ServedFolderSettingPath(baseDir: Path): Path { LogDir(baseDir) + ["served_folder.txt"] }

  function DefaultServePath(baseDir: Path): Path { baseDir + [DefaultFolderName] }

  /** The HTTP server's script, which the supervisor launches. */
  function ServerScriptPath(baseDir: Path): Path { baseDir + ["server", "flask_server.py"] }
}
