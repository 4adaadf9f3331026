/** Generating the private key and the request: pkg/operation/generate/generate.go. */
module Generate {
  import opened Base
  import opened Objects
  import opened Disk
  import opened Hosts

  /** The configuration that all steps of an operation share. */
  class Config {
    var name: string
    var override: bool
    var hosts: seq<string>
    const commonName: string
    const loadPrivateKey: bool
    const keyPath: string
    const csrPath: string

    constructor (name: string, override: bool, hosts: seq<string>, commonName: string, loadPrivateKey: bool,
                 keyPath: string, csrPath: string)
      ensures this.name == name && this.override == override && this.hosts == hosts && this.commonName == commonName
      ensures this.loadPrivateKey == loadPrivateKey && this.keyPath == keyPath && this.csrPath == csrPath
    {
      this.name, this.override, this.hosts, this.commonName := name, override, hosts, commonName;
      this.loadPrivateKey, this.keyPath, this.csrPath := loadPrivateKey, keyPath, csrPath;
    }
  }

  /** The private key that a file holds. */
  function KeyIn(content: map<string, Pem>, path: string): Option<nat> {
    if path !in content then None
    else
      match content[path].Block()
      case Some(PrivateKey(key)) => Some(key)
      case _ => None
  }

  /** The key that a file's certificate was issued for. */
  function CertifiedKey(content: map<string, Pem>, path: string): Option<nat> {
    if path !in content then None
    else
      match content[path].Block()
      case Some(Certificate(CertRequest(key, _, _, _), _)) => Some(key)
      case _ => None
  }

  /** The first block of a file decides, whatever follows it. */
  lemma KeyOfFirstBlock(content: map<string, Pem>, path: string, p: Pem, key: nat)
    ensures KeyIn(content[path := PrivateKey(key)], path) == Some(key)
    ensures KeyIn(content[path := WithRest(p)], path) == KeyIn(content[path := p], path)
    ensures KeyIn(content[path := NotPem(key)], path) == None && (path !in content ==> KeyIn(content, path) == None)
  {
  }

  class Generator {
    const conf: Config
    const files: Files
    const parse: IPParser

    constructor (conf: Config, files: Files, parse: IPParser)
      ensures this.conf == conf && this.files == files && this.parse == parse
    {
      this.conf, this.files, this.parse := conf, files, parse;
    }

    /** A request for the configured name and hosts, signed by the given key. */
    ghost predicate Requests(key: nat, request: Pem)
      reads conf
    {
      request.CertRequest? && request.key == key && request.commonName == conf.commonName
      && Categorized(Elements(conf.hosts), parse, request.dnsNames, request.ipAddresses)
      && (|request.ipAddresses| <= 12 ==> request.ipAddresses == Addresses(conf.hosts, parse))
    }

    /** The key is loaded, or is the new one that key generation gave; None stands for its failure. */
    method GenerateCryptoData(newKey: Option<nat>) returns (r: Result<(nat, Pem), Failure>)
      ensures r.Ok? ==> Requests(r.value.0, r.value.1)
      ensures r.Ok? ==> Some(r.value.0) == if conf.loadPrivateKey then KeyIn(files.content, conf.keyPath) else newKey
      ensures r.Err? ==> r.error in {NoFile, BadKey, KeyGeneration, EmptyCommonName}
      ensures r.Err? <==>
        conf.commonName == "" || (if conf.loadPrivateKey then KeyIn(files.content, conf.keyPath) else newKey).None?
    {
      var key: nat;
      if conf.loadPrivateKey {
        if conf.keyPath !in files.content {
          return Err(NoFile);
        }
        match files.content[conf.keyPath].Block() {
          case Some(PrivateKey(k)) => key := k;
          case _ => return Err(BadKey);
        }
      } else {
        if newKey.None? {
          return Err(KeyGeneration);
        }
        key := newKey.value;
      }
      if conf.commonName == "" {
        return Err(EmptyCommonName);
      }
      var dnsNames, ips := CategorizeHosts(conf.hosts, parse);
      r := Ok((key, CertRequest(key, conf.commonName, dnsNames, ips)));
    }

    /** Writes the request and then, unless it was loaded, the key. */
    method Generate(newKey: Option<nat>) returns (err: Option<Failure>, ghost key: nat, ghost request: Pem)
      modifies files
      ensures err.None? <==> CanGenerate(old(files.content), newKey)
      ensures err.None? ==> Requests(key, request) && files.content == Written(old(files.content), key, request)
      ensures err.None? ==>
        Some(key) == if conf.loadPrivateKey then KeyIn(old(files.content), conf.keyPath) else newKey
      ensures err.None? && conf.csrPath != conf.keyPath ==>
        files.content[conf.csrPath] == request && KeyIn(files.content, conf.keyPath) == Some(key)
      // A failure can leave a new request behind whose key was never written, but only in one way.
      ensures err.Some? ==> err.value in {NoFile, BadKey, KeyGeneration, EmptyCommonName, FileExists}
      ensures err.Some? ==>
        files.content == old(files.content)
        || (files.content == old(files.content)[conf.csrPath := request] && Orphan(old(files.content), newKey))
      ensures Orphan(old(files.content), newKey) ==>
        err == Some(FileExists) && Requests(key, request)
        && files.content == old(files.content)[conf.csrPath := request]
    {
      var r := GenerateCryptoData(newKey);
      if r.Err? {
        return Some(r.error), 0, NotPem(0);
      }
      key, request := r.value.0, r.value.1;
      var ok := files.WriteFile(r.value.1, conf.csrPath, conf.override);
      if !ok {
        return Some(FileExists), key, request;
      }
      if conf.loadPrivateKey {
        return None, key, request;
      }
      ok := files.WriteFile(PrivateKey(r.value.0), conf.keyPath, conf.override);
      err := if ok then None else Some(FileExists);
    }

    /** The disk after the request and, unless it was loaded, the key are written. */
    function Written(content: map<string, Pem>, key: nat, request: Pem): map<string, Pem>
      reads conf
    {
      if conf.loadPrivateKey then content[conf.csrPath := request]
      else content[conf.csrPath := request][conf.keyPath := PrivateKey(key)]
    }

    /** A key and a common name are there, and without override no file is in the way. */
    predicate CanGenerate(content: map<string, Pem>, newKey: Option<nat>)
      reads conf
    {
      conf.commonName != "" && (if conf.loadPrivateKey then KeyIn(content, conf.keyPath) else newKey).Some?
      && (conf.override
          || (conf.csrPath !in content
              && (conf.loadPrivateKey || (conf.keyPath !in content && conf.keyPath != conf.csrPath))))
    }

    /** Without override, the request file is new but the key file is there already, or is the same file. */
    predicate Orphan(content: map<string, Pem>, newKey: Option<nat>)
      reads conf
    {
      !conf.override && !conf.loadPrivateKey && newKey.Some? && conf.commonName != ""
      && conf.csrPath !in content && (conf.keyPath in content || conf.keyPath == conf.csrPath)
    }
  }
}
