/** Writing a collection to a directory: apifn/collections/src/writer.ts. */
module CollectionWriter {
  import opened Text
  import opened Collections
  import opened CollectionPaths

  /** The files below the root directory, by relative path. */
  type Files = map<string, Doc>

  datatype Status =
    | Written
    | UnsafePath(path: string)
    | UnsafeName(name: string)
    | MissingRequest(path: string)
    | MissingRoot

  function RequestDoc(r: Request): Doc {
    EMPTY_DOC.(info := Some(r.info), http := Some(r.http), extra := r.extra)
  }

  function FolderDoc(name: string, order: Option<real>): Doc {
    EMPTY_DOC.(name := Some(name), order := order)
  }

  function EnvironmentDoc(env: Environment): Doc {
    EMPTY_DOC.(name := Some(env.name), variables := Some(env.variables))
  }

  /** An empty description or version is not written. */
  function NonEmpty(s: Option<string>): Option<string> {
    if s == Some("") then None else s
  }

  function RootDoc(info: CollectionInfo): Doc {
    EMPTY_DOC.(name := Some(info.name), description := NonEmpty(info.description), version := NonEmpty(info.version))
  }

  function EnvironmentPath(name: string): string {
    "environments/" + name + ".yml"
  }

  /** The files after writing an item and its children, and how far that went. */
  function AfterItem(files: Files, item: Item): (Files, Status)
    decreases item, 1
  {
    match item
    case Folder(name, path, children, order) =>
      (match SafePath(path)
       case None => (files, UnsafePath(path))
       case Some(dir) => AfterItems(files[dir + "/folder.yml" := FolderDoc(name, order)], children))
    case RequestItem(_, path, request, _) =>
      if request.None? then (files, MissingRequest(path))
      else
        match SafePath(path)
        case None => (files, UnsafePath(path))
        case Some(file) => (files[file := RequestDoc(request.value)], Written)
  }

  function AfterItems(files: Files, items: seq<Item>): (Files, Status)
    decreases items, 0
  {
    if items == [] then (files, Written)
    else
      var (first, status) := AfterItem(files, items[0]);
      if status.Written? then AfterItems(first, items[1..]) else (first, status)
  }

  function AfterEnvironments(files: Files, environments: map<string, Environment>, names: seq<string>): (Files, Status)
    requires forall name :: name in names ==> name in environments
    decreases names
  {
    if names == [] then (files, Written)
    else if !SafeFileStem(names[0]) then (files, UnsafeName(names[0]))
    else
      AfterEnvironments(files[EnvironmentPath(names[0]) := EnvironmentDoc(environments[names[0]])],
                        environments, names[1..])
  }

  /** The files after writing a whole collection, whose environments are listed in the order of `names`. */
  function AfterCollection(files: Files, c: Collection, names: seq<string>): (Files, Status)
    requires forall name :: name in names ==> name in c.environments
  {
    if c.rootDir == "" then (files, MissingRoot)
    else
      var (env, status) := AfterEnvironments(files["opencollection.yml" := RootDoc(c.info)], c.environments, names);
      if status.Written? then AfterItems(env, c.items) else (env, status)
  }

  class Directory {
    var files: Files

    method WriteYaml(path: string, doc: Doc)
      modifies this
      ensures files == old(files)[path := doc]
    {
      files := files[path := doc];
    }

    method WriteItem(item: Item) returns (status: Status)
      modifies this
      ensures (files, status) == AfterItem(old(files), item)
      decreases item
    {
      match item {
        case Folder(name, path, children, order) =>
          var folderDir := SafePath(path);
          if folderDir.None? {
            return UnsafePath(path);
          }
          WriteYaml(folderDir.value + "/folder.yml", FolderDoc(name, order));
          ghost var start := files;
          for i := 0 to |children|
            invariant AfterItems(start, children) == AfterItems(files, children[i..])
          {
            status := WriteItem(children[i]);
            if !status.Written? {
              return;
            }
            assert children[i..][1..] == children[i + 1..];
          }
          return Written;
        case RequestItem(_, path, request, _) =>
          if request.None? {
            return MissingRequest(path);
          }
          var file := SafePath(path);
          if file.None? {
            return UnsafePath(path);
          }
          WriteYaml(file.value, RequestDoc(request.value));
          return Written;
      }
    }

    /** The writer's loops leave the files that the specification describes, also when they stop early. */
    method WriteCollection(c: Collection, names: seq<string>) returns (status: Status)
      requires forall name :: name in names ==> name in c.environments
      modifies this
      ensures (files, status) == AfterCollection(old(files), c, names)
    {
      if c.rootDir == "" {
        return MissingRoot;
      }
      WriteYaml("opencollection.yml", RootDoc(c.info));
      ghost var start := files;
      for i := 0 to |names|
        invariant AfterEnvironments(start, c.environments, names) ==
                  AfterEnvironments(files, c.environments, names[i..])
      {
        if !SafeFileStem(names[i]) {
          return UnsafeName(names[i]);
        }
        WriteYaml(EnvironmentPath(names[i]), EnvironmentDoc(c.environments[names[i]]));
        assert names[i..][1..] == names[i + 1..];
      }
      start := files;
      for i := 0 to |c.items|
        invariant AfterItems(start, c.items) == AfterItems(files, c.items[i..])
      {
        status := WriteItem(c.items[i]);
        if !status.Written? {
          return;
        }
        assert c.items[i..][1..] == c.items[i + 1..];
      }
      return Written;
    }
  }
}
