/**
 * The entry list of a directory listing: each name `readdir` returns, paired
 * with that name joined onto the requested pathname. The HTML template that
 * renders the list is not part of this model.
 */
module DirectoryListing {
  import opened Http

  /** `names.map(item => ({ name: item, path: path.join(pathname, item) }))`. */
  function FileList(pathname: string, names: seq<string>, join: seq<string> -> string): (r: seq<Entry>)
    ensures |r| == |names|
    ensures forall i :: 0 <= i < |names| ==> r[i].name == names[i] && r[i].path == join([pathname, names[i]])
    decreases |names|
  {
    if names == [] then []
    else [Entry(names[0], join([pathname, names[0]]))] + FileList(pathname, names[1..], join)
  }

  /** The names of a list of entries, in order. */
  function Names(entries: seq<Entry>): (r: seq<string>)
    ensures |r| == |entries|
    decreases |entries|
  {
    if entries == [] then [] else [entries[0].name] + Names(entries[1..])
  }

  /** The listing keeps readdir's names, their number and their order. */
  lemma {:induction false} FileListKeepsNames(pathname: string, names: seq<string>, join: seq<string> -> string)
    ensures Names(FileList(pathname, names, join)) == names
    decreases |names|
  {
    if names != [] {
      var r := FileList(pathname, names, join);
      assert r[1..] == FileList(pathname, names[1..], join);
      FileListKeepsNames(pathname, names[1..], join);
    }
  }

  /** Listing two batches of names one after the other gives the two listings one after the other. */
  lemma FileListAppend(pathname: string, a: seq<string>, b: seq<string>, join: seq<string> -> string)
    ensures FileList(pathname, a + b, join) == FileList(pathname, a, join) + FileList(pathname, b, join)
  {
  }
}
