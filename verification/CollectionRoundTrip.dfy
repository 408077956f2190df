/** Reading a collection back from the files that the writer made of it. */
module CollectionRoundTrip {
  import opened Sorting
  import opened Text
  import opened Collections
  import opened CollectionPaths
  import opened CollectionWriter
  import opened CollectionReader
  import opened CollectionEntries
  import opened CollectionRebuild
  import opened CollectionFiles

  // ---- Writing the whole collection ----

  lemma {:induction false} WritesEnvironments(files: Files, environments: map<string, Environment>, names: seq<string>)
    requires GoodEnvironments(environments) && forall n :: n in names ==> n in environments
    ensures var (after, status) := AfterEnvironments(files, environments, names);
            && status.Written?
            && (forall n :: n in names ==>
                  EnvironmentPath(n) in after && after[EnvironmentPath(n)] == EnvironmentDoc(environments[n]))
            && (forall file :: file in after ==> file in files || exists n :: n in names && EnvironmentPath(n) == file)
            && (forall file :: file in files ==> file in after)
            && (forall file :: file in files && (forall n :: n in names ==> EnvironmentPath(n) != file) ==>
                  after[file] == files[file])
    decreases names
  {
    hide EnvironmentPath, SafeFileStem;
    if names != [] {
      var next := files[EnvironmentPath(names[0]) := EnvironmentDoc(environments[names[0]])];
      WritesEnvironments(next, environments, names[1..]);
      assert names == [names[0]] + names[1..];
      forall n | n in names && EnvironmentPath(n) == EnvironmentPath(names[0])
        ensures n == names[0]
      {
        EnvironmentFile(n);
        EnvironmentFile(names[0]);
      }
    }
  }

  /** The writer succeeds on a well-formed collection and an empty directory, and makes exactly its files. */
  lemma WritesFiles(c: Collection, names: seq<string>, le: Collation)
    requires WellFormed(c, le) && forall n :: n in names <==> n in c.environments
    ensures var (after, status) := AfterCollection(map[], c, names);
            status.Written? && FilesAre(after, c)
  {
    hide Entries, WellFormedItems, EnvironmentPath, FileOf, Readable, SafeFileStem, DocOf, AfterItems, AfterEnvironments;
    var root := map[ROOT_FILE := RootDoc(c.info)];
    WritesEnvironments(root, c.environments, names);
    var env := AfterEnvironments(root, c.environments, names).0;
    WritesEntries(env, c.items, "", le);
    EntriesReadable(c.items, "", le);
    forall n | n in c.environments
      ensures EnvironmentPath(n) != ROOT_FILE && !FiledIn(Entries(c.items), EnvironmentPath(n))
    {
      EnvironmentFile(n);
      forall p | p in Entries(c.items)
        ensures FileOf(p, Entries(c.items)[p]) != EnvironmentPath(n)
      {
        EntryFile(p, Entries(c.items)[p]);
      }
    }
    assert !FiledIn(Entries(c.items), ROOT_FILE) by {
      forall p | p in Entries(c.items)
        ensures FileOf(p, Entries(c.items)[p]) != ROOT_FILE
      {
        EntryFile(p, Entries(c.items)[p]);
      }
    }
  }

  /**
   * Round trip. Writing a well-formed collection into an empty directory and reading the directory, in
   * whatever order its files are listed, gives back the collection.
   */
  lemma RoundTrip(c: Collection, names: seq<string>, paths: seq<string>, le: Collation)
    requires TotalPreorder(le) && WellFormed(c, le) && forall n :: n in names <==> n in c.environments
    requires Lists(paths, AfterCollection(map[], c, names).0)
    ensures AfterCollection(map[], c, names).1 == Written
    ensures Read(c.rootDir, AfterCollection(map[], c, names).0, paths, le) == Some(c)
  {
    hide Entries, WellFormedItems, LoadFiles, BuildItems, AfterCollection, Selected;
    var files := AfterCollection(map[], c, names).0;
    WritesFiles(c, names, le);
    LoadsCollection(c, files, paths, le);
    BuildRecovers(LoadFiles(EMPTY, paths, files).context, c.items, "", le);
    assert ReadInfo(files[ROOT_FILE]) == c.info;
  }
}
