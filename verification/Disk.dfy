/** Files on the local disk and the guarded writes of pkg/utils/pemio/write.go. */
module Disk {
  import opened Base
  import opened Objects
  import opened Cluster

  function ContentOf(content: map<string, Pem>, path: string): Option<Pem> {
    if path in content then Some(content[path]) else None
  }

  class Files {
    var content: map<string, Pem>

    constructor ()
      ensures content == map[]
    {
      content := map[];
    }

    /** The contents of a file, if it is there. */
    function Read(path: string): Option<Pem>
      reads this
    {
      ContentOf(content, path)
    }

    /** An existing file is only replaced when override is set. */
    method WriteFile(bytes: Pem, path: string, override: bool) returns (ok: bool)
      modifies this
      ensures ok <==> path !in old(content) || override
      ensures content == if ok then old(content)[path := bytes] else old(content)
    {
      if path in content && !override {
        return false;
      }
      content := content[path := bytes];
      ok := true;
    }
  }

  /** Why a step of an operation fails. */
  datatype Failure =
    | Api(error: ApiError)
    | NoFile
    | BadKey
    | KeyGeneration
    | EmptyCommonName
    | FileExists
    | Refused
    | Interrupted
    | TimedOut
    | QueryError
}
