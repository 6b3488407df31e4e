/** The `GET /files/{filename}` handler: the access check on absolute paths, the existence
    check, and the media type and Content-Disposition chosen from the extension. The uploads
    directory, the working directory and the file system's `os.path.exists` are parameters. */
module FileAccess {
  import opened Text
  import opened Paths

  const PdfMediaType: string := "application/pdf"
  const OctetMediaType: string := "application/octet-stream"

  /** What the handler does: 403, 404, or a `FileResponse` with its headers. */
  datatype Response = Forbidden | NotFound | Serve(path: string, mediaType: string, disposition: string)

  /** `os.path.splitext(filename)[1].lower() == '.pdf'` */
  predicate HasPdfExtension(filename: string) {
    Lower(Splitext(filename).ext) == ".pdf"
  }

  function MediaType(filename: string): string {
    if HasPdfExtension(filename) then PdfMediaType else OctetMediaType
  }

  /** PDFs are shown in the browser, everything else is downloaded. */
  function Disposition(filename: string): string {
    DispositionOf(HasPdfExtension(filename), filename)
  }

  function DispositionOf(inline: bool, filename: string): string {
    (if inline then "inline; filename=" else "attachment; filename=") + filename
  }

  /** The response once the access check has decided. */
  function Respond(filePath: string, filename: string, allowed: bool, present: string -> bool): (r: Response)
    ensures r.Forbidden? <==> !allowed
    ensures r.NotFound? <==> allowed && !present(filePath)
    ensures r.Serve? ==> r.path == filePath && r.mediaType == MediaType(filename) && r.disposition == Disposition(filename)
  {
    if !allowed then Forbidden
    else if !present(filePath) then NotFound
    else Serve(filePath, MediaType(filename), Disposition(filename))
  }

  /** The headers agree with each other: a PDF extension gives "application/pdf" and an
      inline disposition, anything else "application/octet-stream" and an attachment; both
      name the requested file. */
  lemma Headers(filename: string)
    ensures MediaType(filename) == PdfMediaType || MediaType(filename) == OctetMediaType
    ensures MediaType(filename) == PdfMediaType <==> HasPdfExtension(filename)
    ensures StartsWith(Disposition(filename), "inline; ") <==> HasPdfExtension(filename)
    ensures StartsWith(Disposition(filename), "attachment; ") <==> !HasPdfExtension(filename)
    ensures EndsWith(Disposition(filename), filename)
  {
    DispositionShape(HasPdfExtension(filename), filename);
  }

  lemma DispositionShape(inline: bool, filename: string)
    ensures StartsWith(DispositionOf(inline, filename), "inline; ") <==> inline
    ensures StartsWith(DispositionOf(inline, filename), "attachment; ") <==> !inline
    ensures EndsWith(DispositionOf(inline, filename), filename)
  {
    var d := DispositionOf(inline, filename);
    assert d[|d| - |filename|..] == filename;
    if inline {
      assert d[..8] == "inline; ";
      assert d[0] != "attachment; "[0];
    } else {
      assert d[..12] == "attachment; ";
      assert d[0] != "inline; "[0];
    }
  }

  /** The check as written: `abspath(join(dir, filename)).startswith(abspath(dir))`. */
  predicate PrefixAllowed(uploadsDir: string, filename: string, cwd: string)
    requires StartsWith(cwd, "/")
  {
    StartsWith(Abspath(PathJoin(uploadsDir, filename), cwd), Abspath(uploadsDir, cwd))
  }

  /** `get_file(filename)` as written. */
  function GetFile(uploadsDir: string, filename: string, cwd: string, present: string -> bool): (r: Response)
    requires StartsWith(cwd, "/")
    ensures r.Forbidden? <==> !PrefixAllowed(uploadsDir, filename, cwd)
    ensures r.NotFound? <==> PrefixAllowed(uploadsDir, filename, cwd) && !present(PathJoin(uploadsDir, filename))
    ensures r.Serve? ==> r.path == PathJoin(uploadsDir, filename)
  {
    var filePath := PathJoin(uploadsDir, filename);
    Respond(filePath, filename, PrefixAllowed(uploadsDir, filename, cwd), present)
  }

  /** `os.path.join(d, "")`: the directory with one trailing separator. */
  function WithSep(d: string): (r: string)
    ensures StartsWith(r, d)
  {
    if EndsWith(d, "/") then d else d + "/"
  }

  /** The check as intended: the file is the directory itself or lies below it. */
  predicate Inside(file: string, dir: string) {
    file == dir || StartsWith(file, WithSep(dir))
  }

  predicate ContainedAllowed(uploadsDir: string, filename: string, cwd: string)
    requires StartsWith(cwd, "/")
  {
    Inside(Abspath(PathJoin(uploadsDir, filename), cwd), Abspath(uploadsDir, cwd))
  }

  /** `get_file` with the separator-aware check. */
  function GetFileContained(uploadsDir: string, filename: string, cwd: string, present: string -> bool): (r: Response)
    requires StartsWith(cwd, "/")
    ensures r.Serve? ==> AbsOf(uploadsDir, cwd).comps <= AbsOf(PathJoin(uploadsDir, filename), cwd).comps
    ensures r.Serve? ==> r.path == PathJoin(uploadsDir, filename)
    ensures r.Forbidden? <==> !ContainedAllowed(uploadsDir, filename, cwd)
  {
    var filePath := PathJoin(uploadsDir, filename);
    var allowed := ContainedAllowed(uploadsDir, filename, cwd);
    if allowed then
      InsideIsBelow(AbsOf(filePath, cwd), AbsOf(uploadsDir, cwd));
      Respond(filePath, filename, allowed, present)
    else Respond(filePath, filename, allowed, present)
  }

  /** The corrected check only ever narrows the one as written. */
  lemma CorrectedIsStricter(uploadsDir: string, filename: string, cwd: string, present: string -> bool)
    requires StartsWith(cwd, "/")
    ensures GetFileContained(uploadsDir, filename, cwd, present).Serve? ==>
              GetFileContained(uploadsDir, filename, cwd, present) == GetFile(uploadsDir, filename, cwd, present)
    ensures GetFile(uploadsDir, filename, cwd, present).Forbidden? ==> GetFileContained(uploadsDir, filename, cwd, present).Forbidden?
  {
    var f := Abspath(PathJoin(uploadsDir, filename), cwd);
    var d := Abspath(uploadsDir, cwd);
    if Inside(f, d) && f != d {
      assert f[..|d|] == WithSep(d)[..|d|];
    }
  }

  lemma {:induction false} JoinEnds(parts: seq<string>)
    requires |parts| >= 1
    requires forall i :: 0 <= i < |parts| ==> Component(parts[i])
    ensures |Join("/", parts)| > 0
    ensures Join("/", parts)[0] != '/'
    ensures Join("/", parts)[|Join("/", parts)| - 1] != '/'
    decreases |parts|
  {
    assert Component(parts[0]);
    if |parts| > 1 {
      JoinEnds(parts[1..]);
    }
  }

  lemma {:induction false} JoinAppend(a: seq<string>, b: seq<string>)
    requires |a| >= 1 && |b| >= 1
    ensures Join("/", a + b) == Join("/", a) + "/" + Join("/", b)
    decreases |a|
  {
    if |a| == 1 {
      assert (a + b)[1..] == b;
    } else {
      JoinAppend(a[1..], b);
      assert (a + b)[1..] == a[1..] + b;
    }
  }

  lemma ComponentsFree(parts: seq<string>)
    requires forall i :: 0 <= i < |parts| ==> Component(parts[i])
    ensures forall j, k :: 0 <= j < |parts| && 0 <= k < |parts[j]| ==> parts[j][k] != '/'
  {
  }

  /** A rendered path is its leading slashes, then a part that neither starts nor ends with
      a slash (empty only at the root). */
  lemma RenderParts(a: AbsPath)
    requires WellFormed(a)
    ensures |Render(a)| == a.lead + |Join("/", a.comps)|
    ensures forall k :: 0 <= k < a.lead ==> Render(a)[k] == '/'
    ensures Render(a)[a.lead..] == Join("/", a.comps)
    ensures |a.comps| == 0 <==> |Render(a)| == a.lead
    ensures |a.comps| >= 1 ==> Render(a)[a.lead] != '/' && Render(a)[|Render(a)| - 1] != '/'
  {
    if |a.comps| >= 1 {
      JoinEnds(a.comps);
    }
  }

  /** A rendered path that extends a rendered path with components has the same number of
      leading slashes. */
  lemma SameLead(f: AbsPath, d: AbsPath)
    requires WellFormed(f) && WellFormed(d) && |d.comps| >= 1
    requires StartsWith(Render(f), Render(d))
    ensures f.lead == d.lead
  {
    var rf, rd := Render(f), Render(d);
    RenderParts(f);
    RenderParts(d);
    assert forall k :: 0 <= k < |rd| ==> rf[k] == rd[k];
  }

  lemma JoinEmpty(parts: seq<string>)
    ensures |parts| == 0 ==> Join("/", parts) == ""
  {
  }

  /** Components joined with slashes split back into themselves. */
  lemma SplitOfJoin(parts: seq<string>)
    requires |parts| >= 1
    requires forall i :: 0 <= i < |parts| ==> Component(parts[i])
    ensures Split(Join("/", parts), '/') == parts
  {
    ComponentsFree(parts);
    SplitJoin(parts, '/');
  }

  /** Components whose joined text is the other's, or extends it past a separator, extend
      the other's components. */
  lemma JoinedPrefix(cf: seq<string>, cd: seq<string>, tail: string)
    requires forall i :: 0 <= i < |cf| ==> Component(cf[i])
    requires forall i :: 0 <= i < |cd| ==> Component(cd[i])
    requires |cd| >= 1
    requires Join("/", cf) == Join("/", cd) + tail
    requires tail == "" || tail[0] == '/'
    ensures cd <= cf
  {
    var jf, jd := Join("/", cf), Join("/", cd);
    assert |jf| > 0 by {
      JoinEnds(cd);
    }
    assert |cf| >= 1 by {
      JoinEmpty(cf);
    }
    SplitOfJoin(cf);
    SplitOfJoin(cd);
    SplitPrefix(jf, jd, tail);
  }

  /** A text that extends another past a separator splits into the other's pieces first. */
  lemma SplitPrefix(jf: string, jd: string, tail: string)
    requires jf == jd + tail
    requires tail == "" || tail[0] == '/'
    ensures Split(jd, '/') <= Split(jf, '/')
  {
    if tail != "" {
      var rest := tail[1..];
      assert jf == jd + ['/'] + rest;
      SplitConcat(jd, rest, '/');
      var pd := Split(jd, '/');
      assert Split(jf, '/')[..|pd|] == pd;
    } else {
      assert jf == jd;
    }
  }

  /** The intended check is sound: a file path inside the directory path, as strings, has
      the directory's components as a prefix of its own. */
  lemma InsideIsBelow(f: AbsPath, d: AbsPath)
    requires WellFormed(f) && WellFormed(d)
    requires Inside(Render(f), Render(d))
    ensures d.comps <= f.comps
  {
    if |d.comps| == 0 {
      return;
    }
    var rf, rd := Render(f), Render(d);
    RenderParts(d);
    InsideTail(rf, rd);
    SameLead(f, d);
    RenderParts(f);
    var tail := rf[|rd|..];
    DropLead(rf, rd, tail, d.lead);
    JoinedPrefix(f.comps, d.comps, tail);
  }

  /** Dropping the same leading characters from a text and from its prefix keeps the rest. */
  lemma DropLead(s: string, prefix: string, tail: string, n: nat)
    requires s == prefix + tail && n <= |prefix|
    ensures s[n..] == prefix[n..] + tail
  {
  }

  /** A path inside a directory that has no trailing separator is the directory followed by
      nothing or by a separator and more. */
  lemma InsideTail(rf: string, rd: string)
    requires Inside(rf, rd)
    requires |rd| > 0 && rd[|rd| - 1] != '/'
    ensures StartsWith(rf, rd)
    ensures rf == rd + rf[|rd|..]
    ensures rf[|rd|..] == "" || rf[|rd|] == '/'
  {
    assert WithSep(rd) == rd + "/";
    if rf != rd {
      assert rf[..|rd|] == (rd + "/")[..|rd|];
      assert rf[|rd|] == (rd + "/")[|rd|];
    }
  }

  /** And it is complete: every path with the directory's leading slashes and components
      below it passes. */
  lemma BelowIsInside(f: AbsPath, d: AbsPath)
    requires WellFormed(f) && WellFormed(d)
    requires f.lead == d.lead && d.comps <= f.comps
    ensures Inside(Render(f), Render(d))
  {
    var rf, rd := Render(f), Render(d);
    if |d.comps| == 0 {
      assert rd == Slashes(d.lead);
      assert EndsWith(rd, "/") by {
        assert rd[|rd| - 1..] == "/";
      }
      assert rf[..|rd|] == rd;
    } else if f.comps != d.comps {
      var tail := f.comps[|d.comps|..];
      assert f.comps == d.comps + tail;
      JoinAppend(d.comps, tail);
      JoinEnds(d.comps);
      var jd := Join("/", d.comps);
      assert rd[|rd| - 1] == jd[|jd| - 1];
      assert WithSep(rd) == rd + "/";
      assert rf == rd + "/" + Join("/", tail);
      assert rf[..|rd + "/"|] == rd + "/";
    }
  }

  /** The path of the example below: the parent of the uploads directory, then a sibling
      `v` and a file `f` in it. */
  function SiblingName(v: string, f: string): string {
    "../" + v + "/" + f
  }

  lemma SiblingJoin(u: string, v: string, f: string)
    requires Component(u) && Component(v) && Component(f)
    ensures PathJoin("/" + u, SiblingName(v, f)) == "/" + u + "/" + SiblingName(v, f)
    ensures Join("/", ["", u, "..", v, f]) == "/" + u + "/" + SiblingName(v, f)
  {
    var parts := ["", u, "..", v, f];
    assert !EndsWith("/" + u, "/") by {
      assert ("/" + u)[|"/" + u| - 1] == u[|u| - 1];
    }
    assert !StartsWith(SiblingName(v, f), "/") by {
      assert SiblingName(v, f)[0] == '.';
    }
    var tail := v + "/" + f;
    assert Join("/", [v, f]) == tail by {
      assert [v, f][1..] == [f];
    }
    assert Join("/", ["..", v, f]) == ".." + "/" + tail by {
      assert ["..", v, f][1..] == [v, f];
    }
    assert Join("/", [u, "..", v, f]) == u + "/" + (".." + "/" + tail) by {
      assert [u, "..", v, f][1..] == ["..", v, f];
    }
    assert Join("/", parts) == "" + "/" + (u + "/" + (".." + "/" + tail)) by {
      assert parts[1..] == [u, "..", v, f];
    }
    assert SiblingName(v, f) == ".." + "/" + tail;
  }

  lemma SiblingSplit(u: string, v: string, f: string)
    requires Component(u) && Component(v) && Component(f)
    ensures Split("/" + u + "/" + SiblingName(v, f), '/') == ["", u, "..", v, f]
    ensures Split("/" + u, '/') == ["", u]
  {
    SiblingJoin(u, v, f);
    SplitJoin(["", u, "..", v, f], '/');
    var short := ["", u];
    assert Join("/", short) == "/" + u by {
      assert short[1..] == [u];
    }
    SplitJoin(short, '/');
  }

  lemma SiblingResolve(u: string, v: string, f: string)
    requires Component(u) && Component(v) && Component(f)
    ensures Resolve(["", u, "..", v, f], []) == [v, f]
    ensures Resolve(["", u], []) == [u]
  {
    assert Resolve(["", u, "..", v, f], []) == Resolve([u, "..", v, f], []) by {
      assert ["", u, "..", v, f][1..] == [u, "..", v, f];
    }
    assert Resolve([u, "..", v, f], []) == Resolve(["..", v, f], [u]) by {
      assert [u, "..", v, f][1..] == ["..", v, f];
      assert [] + [u] == [u];
    }
    assert Resolve(["..", v, f], [u]) == Resolve([v, f], []) by {
      assert ["..", v, f][1..] == [v, f];
      assert [u][..0] == [];
    }
    assert Resolve([v, f], []) == Resolve([f], [v]) by {
      assert [v, f][1..] == [f];
      assert [] + [v] == [v];
    }
    assert Resolve([f], [v]) == [v, f] by {
      assert [f][1..] == [];
      assert [v] + [f] == [v, f];
    }
    assert Resolve(["", u], []) == Resolve([u], []) by {
      assert ["", u][1..] == [u];
    }
    assert Resolve([u], []) == [u] by {
      assert [u][1..] == [];
      assert [] + [u] == [u];
    }
  }

  lemma SiblingAbspath(u: string, v: string, f: string, cwd: string)
    requires Component(u) && Component(v) && Component(f) && StartsWith(cwd, "/")
    ensures AbsOf(PathJoin("/" + u, SiblingName(v, f)), cwd) == AbsPath(1, [v, f])
    ensures AbsOf("/" + u, cwd) == AbsPath(1, [u])
  {
    SiblingJoin(u, v, f);
    var p := "/" + u + "/" + SiblingName(v, f);
    assert StartsWith(p, "/") && !StartsWith(p, "//") by {
      assert p[0] == '/' && p[1] == u[0];
    }
    assert StartsWith("/" + u, "/") && !StartsWith("/" + u, "//") by {
      assert ("/" + u)[1] == u[0];
    }
    assert Normalise(p) == AbsPath(1, [v, f]) by {
      SiblingSplit(u, v, f);
      SiblingResolve(u, v, f);
    }
    assert Normalise("/" + u) == AbsPath(1, [u]) by {
      SiblingSplit(u, v, f);
      SiblingResolve(u, v, f);
    }
  }

  /** The rendered paths of the example: the file's starts with the directory's, but not
      with the directory and a separator. */
  lemma SiblingRendered(u: string, x: string, f: string)
    requires Component(u) && Component(u + x) && Component(f) && x != ""
    ensures StartsWith(Render(AbsPath(1, [u + x, f])), Render(AbsPath(1, [u])))
    ensures !Inside(Render(AbsPath(1, [u + x, f])), Render(AbsPath(1, [u])))
  {
    var v := u + x;
    var file := Render(AbsPath(1, [v, f]));
    var dir := Render(AbsPath(1, [u]));
    assert Join("/", [v, f]) == v + "/" + f by {
      assert [v, f][1..] == [f];
    }
    assert file == "/" + v + "/" + f;
    assert dir == "/" + u;
    assert file[..|dir|] == dir;
    assert v[|u|] == x[0];
    assert WithSep(dir) == dir + "/" by {
      assert dir[|dir| - 1] == u[|u| - 1];
    }
    assert file[|dir|] == v[|u|];
  }

  /** Let the uploads directory be "/u" and let "/v" be a sibling whose name extends "u",
      as "/ux" extends "/u". Then "../v/f" resolves to "/v/f", outside the directory. The
      string-prefix check lets it through and the file is served, while the
      separator-aware check refuses it. */
  lemma SiblingDirectoryServed(u: string, x: string, f: string, cwd: string, present: string -> bool)
    requires Component(u) && Component(u + x) && Component(f) && x != "" && StartsWith(cwd, "/")
    requires present("/" + u + "/" + SiblingName(u + x, f))
    ensures var name := SiblingName(u + x, f);
            GetFile("/" + u, name, cwd, present) == Serve(PathJoin("/" + u, name), MediaType(name), Disposition(name))
    ensures !(AbsOf("/" + u, cwd).comps <= AbsOf(PathJoin("/" + u, SiblingName(u + x, f)), cwd).comps)
    ensures GetFileContained("/" + u, SiblingName(u + x, f), cwd, present) == Forbidden
  {
    var v := u + x;
    SiblingJoin(u, v, f);
    SiblingAbspath(u, v, f, cwd);
    SiblingRendered(u, x, f);
    assert [u][0] != [v, f][0];
  }
}
