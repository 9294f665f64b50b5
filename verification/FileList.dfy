/** The list of changed files, which grows page by page. */
module FileList {
  import opened Text

  datatype File = File(path: string, additions: nat, deletions: nat)

  datatype Page = Page(files: seq<File>, nextOffset: Option<nat>)

  ghost function Paths(files: seq<File>): set<string> {
    set file <- files :: file.path
  }

  ghost predicate Distinct(files: seq<File>) {
    forall i, j :: 0 <= i < j < |files| ==> files[i].path != files[j].path
  }

  predicate Listed(files: seq<File>, path: string) {
    exists k :: 0 <= k < |files| && files[k].path == path
  }

  /** The files of a page whose path is not listed; the page is not compared with itself. */
  function Fresh(files: seq<File>, page: seq<File>): seq<File> {
    if page == [] then []
    else (if Listed(files, page[0].path) then [] else [page[0]]) + Fresh(files, page[1..])
  }

  function Merged(files: seq<File>, page: seq<File>): seq<File> {
    files + Fresh(files, page)
  }

  class ChangedFiles {
    var files: seq<File>
    var nextOffset: Option<nat>

    constructor (first: Page)
      ensures files == first.files && nextOffset == first.nextOffset
    {
      files := first.files;
      nextOffset := first.nextOffset;
    }

    method LoadMore(page: Page)
      modifies this
      ensures files == Merged(old(files), page.files)
      ensures nextOffset == page.nextOffset
    {
      files := files + Fresh(files, page.files);
      nextOffset := page.nextOffset;
    }
  }

  lemma {:induction false} FreshFiles(files: seq<File>, page: seq<File>)
    ensures forall file :: file in Fresh(files, page) <==> file in page && file.path !in Paths(files)
  {
    if page != [] {
      FreshFiles(files, page[1..]);
      assert page == [page[0]] + page[1..];
      assert Listed(files, page[0].path) <==> page[0].path in Paths(files);
    }
  }

  lemma {:induction false} FreshJoin(files: seq<File>, page: seq<File>, rest: seq<File>)
    ensures Fresh(files, page + rest) == Fresh(files, page) + Fresh(files, rest)
  {
    hide Listed;
    if page == [] {
      assert page + rest == rest;
    } else {
      assert (page + rest)[1..] == page[1..] + rest;
      FreshJoin(files, page[1..], rest);
    }
  }

  /** The files keep the order of their page: what comes first there is added first. */
  lemma FreshInOrder(files: seq<File>, page: seq<File>, file: File, rest: seq<File>)
    ensures Fresh(files, page + [file] + rest)
            == Fresh(files, page) + (if exists k :: 0 <= k < |files| && files[k].path == file.path then [] else [file]) + Fresh(files, rest)
  {
    hide Fresh;
    FreshJoin(files, page + [file], rest);
    FreshJoin(files, page, [file]);
    FreshOne(files, file);
  }

  lemma FreshOne(files: seq<File>, file: File)
    ensures Fresh(files, [file]) == if exists k :: 0 <= k < |files| && files[k].path == file.path then [] else [file]
  {
    assert [file][1..] == [];
  }

  lemma {:induction false} FreshDistinct(files: seq<File>, page: seq<File>)
    requires Distinct(page)
    ensures Distinct(Fresh(files, page))
  {
    if page != [] {
      FreshDistinct(files, page[1..]);
      FreshFiles(files, page[1..]);
    }
  }

  /** What was listed keeps its place and its data; the paths are those of both lists. */
  lemma MergeKeeps(files: seq<File>, page: seq<File>)
    ensures files <= Merged(files, page)
    ensures Paths(Merged(files, page)) == Paths(files) + Paths(page)
  {
    FreshFiles(files, page);
    var merged := Merged(files, page);
    forall path | path in Paths(files) + Paths(page) ensures path in Paths(merged) {
      if path in Paths(files) {
        var file :| file in files && file.path == path;
        assert file in merged;
      } else {
        var file :| file in page && file.path == path;
        assert file in Fresh(files, page) && file in merged;
      }
    }
  }

  /** Paths stay distinct exactly when those that are new to the list are. */
  lemma MergeDistinct(files: seq<File>, page: seq<File>)
    ensures Distinct(Merged(files, page)) <==> Distinct(files) && Distinct(Fresh(files, page))
  {
    FreshFiles(files, page);
    var added, merged := Fresh(files, page), Merged(files, page);
    if Distinct(merged) {
      forall i, j | 0 <= i < j < |added| ensures added[i].path != added[j].path {
        assert merged[|files| + i] == added[i] && merged[|files| + j] == added[j];
      }
      forall i, j | 0 <= i < j < |files| ensures files[i].path != files[j].path {
        assert merged[i] == files[i] && merged[j] == files[j];
      }
    }
    if Distinct(files) && Distinct(added) {
      forall i, j | 0 <= i < j < |merged| ensures merged[i].path != merged[j].path {
        if i < |files| <= j {
          assert files[i].path in Paths(files);
          assert added[j - |files|] in added;
        }
      }
    }
  }

  /** A page that repeats a new path puts it on the list twice. */
  lemma RepeatedPath()
    ensures var file := File("a", 1, 0); !Distinct(Merged([], [file, file]))
  {
    var file := File("a", 1, 0);
    assert Fresh([], [file, file]) == [file] + Fresh([], [file, file][1..]);
    assert Fresh([], [file]) == [file] + Fresh([], [file][1..]);
    assert [file, file][1..] == [file];
    assert Merged([], [file, file])[0] == Merged([], [file, file])[1] == file;
  }

  /** The list after the first pages of a pull request. */
  function AfterPages(pages: seq<seq<File>>): seq<File> {
    if pages == [] then [] else Merged(AfterPages(pages[..|pages| - 1]), pages[|pages| - 1])
  }

  /** However the pages overlap, no path is listed twice and none is missing. */
  lemma {:induction false} PagesListedOnce(pages: seq<seq<File>>)
    requires forall page <- pages :: Distinct(page)
    ensures Distinct(AfterPages(pages))
    ensures forall path :: path in Paths(AfterPages(pages)) <==> exists page <- pages :: path in Paths(page)
  {
    hide Paths, Distinct, Fresh, Merged;
    if pages == [] {
      EmptyList();
    } else {
      var before, last := pages[..|pages| - 1], pages[|pages| - 1];
      assert pages == before + [last];
      PagesListedOnce(before);
      FreshDistinct(AfterPages(before), last);
      MergeDistinct(AfterPages(before), last);
      MergeKeeps(AfterPages(before), last);
    }
  }

  lemma EmptyList()
    ensures Distinct([]) && Paths([]) == {}
  {
  }
}
