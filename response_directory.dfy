/** The rows and the page of a directory listing (autoindex).  Two
    revisions exist: the one in ResponseDirectory.cpp builds each row from
    the entry alone, and the older one in Response.cpp keeps the size and
    modification-time strings in variables that live across the readdir
    loop, so a ".." row repeats the values of the row before it. */
module ResponseDirectory {
  import opened Wrappers
  import opened Strings
  import opened Fs
  import opened ResponseUtils

  /** One table row of the listing. */
  function ListingRow(name: string, modTime: string, size: string): (r: string)
    ensures |r| > 0
  {
    "<tr><td style=\"width:70%\"><a href=\"" + name + "\">" + name + "</a></td>"
      + "<td style=\"width:20%\">" + modTime + "</td>"
      + "<td align=\"right\">" + size + "</td></tr>\n"
  }

  /** The page up to the first row. */
  function ListingHead(filePath: string): string
  {
    "<html><body><h1>Index of " + filePath + "</h1>\n<hr><pre><table>\n"
  }

  const ListingTail: string := "</table>\n</pre><hr></body>\n</html>\n"

  /** _getEntryStats: the size and the modification time of a path, both
      "Unknown" when stat fails. */
  function EntryStats(fs: FileSystem, path: string): (r: (string, string))
    ensures Stat(fs, path).None? ==> r == ("Unknown", "Unknown")
    ensures Stat(fs, path).Some? ==>
      r == (NatToString(Stat(fs, path).value.0), Stat(fs, path).value.1)
  {
    match Stat(fs, path)
    case None => ("Unknown", "Unknown")
    case Some((size, mtime)) => (NatToString(size), mtime)
  }

  /** _getEntryLine: "." gives no row; ".." is shown as "../" with empty
      time and size and is not stat'ed; a directory is shown with a trailing
      '/' and size "-"; any other entry with its stat'ed size. */
  function EntryLine(fs: FileSystem, localPath: string, e: DirEntry): (r: string)
    ensures r == "" <==> e.name == "."
  {
    if e.name == "." then ""
    else if e.name == ".." then ListingRow(e.name + "/", "", "")
    else
      var (size, modTime) := EntryStats(fs, BuildPath(localPath, e.name));
      if e.isDir then ListingRow(e.name + "/", modTime, "-") else ListingRow(e.name, modTime, size)
  }

  /** What each kind of entry shows: ".." as "../" with empty columns, a
      directory with a trailing '/' and size "-", and a file or a directory
      whose stat fails with "Unknown" time (and size, for a file). */
  lemma EntryLineCases(fs: FileSystem, localPath: string, e: DirEntry)
    ensures e.name == ".." ==> EntryLine(fs, localPath, e) == ListingRow("../", "", "")
    ensures e.name != "." && e.name != ".." ==>
      var (size, modTime) := EntryStats(fs, BuildPath(localPath, e.name));
      EntryLine(fs, localPath, e)
        == (if e.isDir then ListingRow(e.name + "/", modTime, "-") else ListingRow(e.name, modTime, size))
    ensures e.name != "." && e.name != ".." && !Exists(fs, BuildPath(localPath, e.name)) ==>
      EntryLine(fs, localPath, e)
        == ListingRow(if e.isDir then e.name + "/" else e.name, "Unknown", if e.isDir then "-" else "Unknown")
  {
    if e.name == ".." {
      assert e.name + "/" == "../";
    }
  }

  /** The rows of a run of entries, in readdir order. */
  function Rows(fs: FileSystem, localPath: string, entries: seq<DirEntry>): string
    decreases |entries|
  {
    if entries == [] then ""
    else Rows(fs, localPath, entries[..|entries| - 1]) + EntryLine(fs, localPath, entries[|entries| - 1])
  }

  /** One more entry adds its row at the end. */
  lemma RowsStep(fs: FileSystem, localPath: string, entries: seq<DirEntry>, i: nat)
    requires i < |entries|
    ensures Rows(fs, localPath, entries[..i + 1])
      == Rows(fs, localPath, entries[..i]) + EntryLine(fs, localPath, entries[i])
  {
    assert entries[..i + 1][..i] == entries[..i];
  }

  // ---------------------------------------------------------------------
  // The older listing of Response.cpp

  /** _getModTime: the formatted modification time, or "Unknown". */
  function ModTime(fs: FileSystem, path: string): (t: string)
    ensures Stat(fs, path).Some? ==> t == fs[path].mtime
    ensures Stat(fs, path).None? ==> t == "Unknown"
  {
    match Stat(fs, path)
    case Some((_, mtime)) => mtime
    case None => "Unknown"
  }

  /** The loop variables of the older listing that outlive an iteration. */
  datatype Carried = Carried(size: string, modTime: string)

  /** One iteration of the older readdir loop: the row it writes (none for
      ".") and the size and time it leaves behind.  A plain file whose stat
      fails prints an indeterminate st_size, here the value garbage, which
      may be negative as an off_t may. */
  function CarriedStep(fs: FileSystem, dirPath: string, e: DirEntry, c: Carried, garbage: int)
    : (r: (Carried, string))
    ensures e.name == "." ==> r == (c, "")
    ensures e.name == ".." ==> r == (c, ListingRow("../", c.modTime, c.size))
    ensures e.name != "." && e.name != ".." && e.isDir ==>
      r.0 == Carried("-", ModTime(fs, dirPath + e.name))
    ensures e.name != "." && e.name != ".." ==>
      r.1 == ListingRow(if e.isDir then e.name + "/" else e.name, r.0.modTime, r.0.size)
  {
    var fullPath := dirPath + e.name;
    if e.name == "." then (c, "")
    else if e.name == ".." then
      assert e.name + "/" == "../";
      (c, ListingRow(e.name + "/", c.modTime, c.size))
    else if e.isDir then
      var c' := Carried("-", ModTime(fs, fullPath));
      (c', ListingRow(e.name + "/", c'.modTime, c'.size))
    else
      var size := match Stat(fs, fullPath) case Some((n, _)) => NatToString(n) case None => IntToString(garbage);
      var c' := Carried(size, ModTime(fs, fullPath));
      (c', ListingRow(e.name, c'.modTime, c'.size))
  }

  /** The rows of the older loop over a run of entries, and the values it
      carries out of the last iteration. */
  function CarriedRows(fs: FileSystem, dirPath: string, entries: seq<DirEntry>, garbage: int)
    : (r: (Carried, string))
    decreases |entries|
  {
    if entries == [] then (Carried("", ""), "")
    else
      var (c, rows) := CarriedRows(fs, dirPath, entries[..|entries| - 1], garbage);
      var (c', row) := CarriedStep(fs, dirPath, entries[|entries| - 1], c, garbage);
      (c', rows + row)
  }

  /** One more entry of the older loop: its step on the values carried
      so far. */
  lemma CarriedRowsStep(fs: FileSystem, dirPath: string, entries: seq<DirEntry>, i: nat, garbage: int)
    requires i < |entries|
    ensures var before := CarriedRows(fs, dirPath, entries[..i], garbage);
      var step := CarriedStep(fs, dirPath, entries[i], before.0, garbage);
      CarriedRows(fs, dirPath, entries[..i + 1], garbage) == (step.0, before.1 + step.1)
  {
    assert entries[..i + 1][..i] == entries[..i];
  }

  /** In the older listing a ".." entry right after a plain file repeats
      that file's size and time. */
  lemma DotDotRepeatsPreviousRow(fs: FileSystem, dir: string, name: string)
    requires name != "." && name != ".." && Exists(fs, dir + name)
    ensures var size := NatToString(fs[dir + name].size);
      var t := fs[dir + name].mtime;
      CarriedRows(fs, dir, [DirEntry(name, false), DirEntry("..", true)], 0).1
        == ListingRow(name, t, size) + ListingRow("../", t, size)
  {
    var file := DirEntry(name, false);
    var up := DirEntry("..", true);
    var entries := [file, up];
    var size := NatToString(fs[dir + name].size);
    var t := fs[dir + name].mtime;
    var c1 := Carried(size, t);
    var row1 := ListingRow(name, t, size);
    var row2 := ListingRow("../", t, size);
    assert CarriedStep(fs, dir, file, Carried("", ""), 0) == (c1, row1);
    assert CarriedStep(fs, dir, up, c1, 0) == (c1, row2);
    assert entries[..1] == [file];
    assert [file][..0] == [];
    assert CarriedRows(fs, dir, [file], 0) == (c1, "" + row1);
    assert "" + row1 == row1;
  }

  /** In the newer listing a ".." entry shows empty time and size whatever
      came before it. */
  lemma DotDotShowsNoStats(fs: FileSystem, dir: string, front: seq<DirEntry>)
    ensures Rows(fs, dir, front + [DirEntry("..", true)])
      == Rows(fs, dir, front) + ListingRow("../", "", "")
  {
    var up := DirEntry("..", true);
    assert (front + [up])[..|front|] == front;
    assert (front + [up])[|front|] == up;
    EntryLineCases(fs, dir, up);
  }

  // ---------------------------------------------------------------------
  // The page

  /** The status line and headers both listings write in front of the page. */
  function ListingHeader(htmlLength: nat): string
  {
    "HTTP/1.1 200 OK\r\nContent-Type: text/html\r\nContent-Length: " + NatToString(htmlLength) + "\r\n\r\n"
  }

  /** The listing's hand-written header is the one _getHtmlHeader builds for
      a 200 html page of that length, so a client reads back the page
      length as its Content-Length. */
  lemma ListingHeaderIsHtmlHeader(htmlLength: nat)
    ensures ListingHeader(htmlLength) == HtmlHeader(htmlLength, 200, "html")
  {
    assert StatusText(200) == "200 OK";
    assert ContentType("html") == "text/html";
    ListingHeadLiteral();
  }

  /** The pieces _getHtmlHeader joins for a 200 html page, up to the length. */
  lemma ListingHeadLiteral()
    ensures "HTTP/1.1 " + "200 OK" + "\r\n" + "Content-Type: " + "text/html" + "\r\n" + "Content-Length: "
      == "HTTP/1.1 200 OK\r\nContent-Type: text/html\r\nContent-Length: "
  {
    assert "HTTP/1.1 " + "200 OK" == "HTTP/1.1 200 OK";
    assert "HTTP/1.1 200 OK" + "\r\n" == "HTTP/1.1 200 OK\r\n";
    assert "HTTP/1.1 200 OK\r\n" + "Content-Type: " == "HTTP/1.1 200 OK\r\nContent-Type: ";
    assert "HTTP/1.1 200 OK\r\nContent-Type: " + "text/html" == "HTTP/1.1 200 OK\r\nContent-Type: text/html";
    assert "HTTP/1.1 200 OK\r\nContent-Type: text/html" + "\r\n" == "HTTP/1.1 200 OK\r\nContent-Type: text/html\r\n";
  }
}
