/** The description of one source repository, shared by the argument loop and the report. */
module SubtreeConfigs {
  /**
   * One source repository: the directory its history is moved into, its URL,
   * and the remote name used for it in reports.
   */
  datatype SubtreeConfig = SubtreeConfig(directory: string, repositoryUrl: string, remoteName: string)

  /**
   * `new SubtreeConfig(directory, new URIish(repositoryUrl))`. The constructor is
   * not part of this model; how it derives the remote name is the parameter
   * `remoteNameOf`.
   */
  function NewSubtreeConfig(directory: string, repositoryUrl: string,
                            remoteNameOf: (string, string) -> string): (c: SubtreeConfig)
    ensures c.directory == directory && c.repositoryUrl == repositoryUrl
  {
    SubtreeConfig(directory, repositoryUrl, remoteNameOf(directory, repositoryUrl))
  }
}
