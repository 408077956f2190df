/** What the tools share of an OpenAPI document: its paths and the methods of a path. */
module OpenApi {
  /** The operations of a path, in the order in which the sources list them. */
  const HTTP_METHODS: seq<string> := ["get", "put", "post", "delete", "options", "head", "patch", "trace"]

  /** One entry of `paths`, with what it says of operations. */
  datatype PathItem<+T> = PathItem(path: string, operations: T)

  /** The paths are distinct, as the keys of an object are. */
  ghost predicate DistinctPaths<T>(paths: seq<PathItem<T>>) {
    forall i, j :: 0 <= i < j < |paths| ==> paths[i].path != paths[j].path
  }
}
