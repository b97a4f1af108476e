/**
 * The part of Volume a File calls: writeFile (the commit behind
 * File.Sync) and Chdir. Their code and the key-value store behind them are
 * not part of this model; the stub records every call in a ghost log and
 * answers with an error exactly when `failing` is set, which stands for a
 * store that refuses the transaction.
 */
module Volumes {
  import opened Wrappers
  import opened Headers
  import opened FileModel

  class Volume {
    var failing: bool
    /** Every entry handed to writeFile, oldest first. */
    ghost var commits: seq<Entry>
    /** Every name handed to Chdir, oldest first. */
    ghost var chdirs: seq<string>

    constructor (failing: bool)
      ensures this.failing == failing && commits == [] && chdirs == []
    {
      this.failing := failing;
      commits := [];
      chdirs := [];
    }

    method WriteFile(e: Entry) returns (err: Option<Error>)
      modifies this`commits
      ensures commits == old(commits) + [e]
      ensures err == CommitError(failing)
    {
      commits := commits + [e];
      err := if failing then Some(StoreFailure) else None;
    }

    method Chdir(name: string) returns (err: Option<Error>)
      modifies this`chdirs
      ensures chdirs == old(chdirs) + [name]
      ensures err == CommitError(failing)
    {
      chdirs := chdirs + [name];
      err := if failing then Some(StoreFailure) else None;
    }
  }
}
