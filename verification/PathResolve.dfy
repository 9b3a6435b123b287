/**
  From the request's URI to a file under the document root.
 */
module PathResolve {
  import opened Text
  import opened Exchange
  import opened HttpParse
  import opened HttpPrint

  const PATH_MAX := 4096

  predicate StartsWithSlash(s: string) {
    s != "" && s[0] == '/'
  }

  predicate EndsWithSlash(s: string) {
    s != "" && s[|s| - 1] == '/'
  }

  /** The document root and the URI with a slash between them. */
  function Join(docroot: string, uri: string): string {
    if EndsWithSlash(docroot) && StartsWithSlash(uri) then docroot + uri[1..]
    else if !EndsWithSlash(docroot) && !StartsWithSlash(uri) then docroot + "/" + uri
    else docroot + uri
  }

  /** resolve_path for an output of PATH_MAX bytes. */
  function Resolve(docroot: string, uri: string): string {
    var path := Cut(Join(docroot, uri), PATH_MAX - 1);
    if EndsWithSlash(path) then Cut(path + "index.html", PATH_MAX - 1) else path
  }

  method StrLen(buf: array<char>, ghost s: string) returns (n: nat)
    requires |s| < buf.Length && buf[..|s|] == s && buf[|s|] == '\0' && '\0' !in s
    ensures n == |s|
  {
    n := 0;
    while buf[n] != '\0'
      invariant 0 <= n <= |s|
      decreases |s| - n
    {
      assert s[n] == buf[..|s|][n];
      n := n + 1;
    }
  }

  /** The snprintf that joins root and URI. */
  method PrintJoin(docroot: string, uri: string, out: array<char>)
    requires docroot != "" && out.Length == PATH_MAX
    modifies out
    ensures var path := Cut(Join(docroot, uri), PATH_MAX - 1);
            out[..|path|] == path && out[|path|] == '\0'
  {
    var rootHasSlash := docroot[|docroot| - 1] == '/';
    var uriHasSlash := uri != "" && uri[0] == '/';
    var text := docroot + uri;
    if rootHasSlash && uriHasSlash {
      text := docroot + uri[1..];
    } else if !rootHasSlash && !uriHasSlash {
      text := docroot + "/" + uri;
    }
    assert text == Join(docroot, uri);
    var written := Snprintf(out, 0, out.Length, text);
  }

  /** strncat behind the `n` bytes of `path`. */
  method AppendIndex(out: array<char>, n: nat, ghost path: string)
    requires out.Length == PATH_MAX && n == |path| < PATH_MAX && out[..n] == path && out[n] == '\0'
    modifies out
    ensures var full := Cut(path + "index.html", PATH_MAX - 1);
            out[..|full|] == full && out[|full|] == '\0'
  {
    var written := Snprintf(out, n, out.Length - n, "index.html");
    ghost var more := Cut("index.html", out.Length - n - 1);
    Extends(path, "index.html");
    assert out[..n] == path;
    assert out[..n + |more|] == out[..n] + out[n..n + |more|];
  }

  lemma JoinIsCString(docroot: string, uri: string)
    requires docroot != "" && '\0' !in docroot && '\0' !in uri
    ensures var path := Cut(Join(docroot, uri), PATH_MAX - 1);
            '\0' !in path && path != ""
  {
  }

  /** resolve_path on its output buffer; the strings are C strings and the root is not empty. */
  method ResolvePath(docroot: string, uri: string, out: array<char>)
    requires docroot != "" && '\0' !in docroot && '\0' !in uri && out.Length == PATH_MAX
    modifies out
    ensures var path := Resolve(docroot, uri);
            |path| < PATH_MAX && out[..|path|] == path && out[|path|] == '\0'
  {
    ghost var path := Cut(Join(docroot, uri), PATH_MAX - 1);
    JoinIsCString(docroot, uri);
    PrintJoin(docroot, uri, out);
    var n := StrLen(out, path);
    assert out[n - 1] == out[..n][n - 1];
    if out[n - 1] == '/' {
      AppendIndex(out, n, path);
    }
  }

  lemma Extends(path: string, more: string)
    requires |path| < PATH_MAX
    ensures Cut(path + more, PATH_MAX - 1) == path + Cut(more, PATH_MAX - 1 - |path|)
  {
  }

  // ---- Where the path lies

  /** The document root without the slash it may end in. */
  function Root(docroot: string): string {
    if EndsWithSlash(docroot) then docroot[..|docroot| - 1] else docroot
  }

  predicate NoDots(s: string) {
    forall i :: 0 <= i < |s| - 1 ==> s[i] != '.' || s[i + 1] != '.'
  }

  lemma NoDotsIff(s: string)
    ensures NoDots(s) <==> !Contains(s, "..")
  {
    forall i | 0 <= i <= |s| - 2 ensures s[i..i + 2] == [s[i], s[i + 1]] {
    }
    if !NoDots(s) {
      var i :| 0 <= i < |s| - 1 && s[i] == '.' && s[i + 1] == '.';
      assert At(s, i, "..");
    }
    if Contains(s, "..") {
      var i :| 0 <= i <= |s| && At(s, i, "..");
      var t := s[i..i + 2];
      assert t == ".." && t[0] == s[i] && t[1] == s[i + 1];
    }
  }

  /** What follows the root in the path, before it is cut. */
  function Tail(uri: string): string {
    "/" + (if StartsWithSlash(uri) then uri[1..] else uri)
  }

  lemma JoinIsRootAndTail(docroot: string, uri: string)
    ensures Join(docroot, uri) == Root(docroot) + Tail(uri)
  {
    var rest := if StartsWithSlash(uri) then uri[1..] else uri;
    assert StartsWithSlash(uri) ==> uri == "/" + rest;
    assert EndsWithSlash(docroot) ==> docroot == Root(docroot) + "/";
    assert Tail(uri) == "/" + rest;
    if EndsWithSlash(docroot) {
      assert Join(docroot, uri) == docroot + rest == Root(docroot) + "/" + rest;
    }
    Regroup(Root(docroot), "/", rest);
  }

  lemma LongerIsCut(s: string, more: string)
    requires |s| >= PATH_MAX - 1
    ensures Cut(s + more, PATH_MAX - 1) == s[..PATH_MAX - 1] == Cut(s, PATH_MAX - 1)
  {
    assert (s + more)[..PATH_MAX - 1] == s[..PATH_MAX - 1];
    assert |s| == PATH_MAX - 1 ==> s[..|s|] == s && (more == "" ==> s + more == s);
  }

  /** Cutting before and after the index name is cutting once. */
  lemma ResolveCutsOnce(docroot: string, uri: string)
    ensures var full := Join(docroot, uri);
            Resolve(docroot, uri) == Cut(if EndsWithSlash(full) then full + "index.html" else full, PATH_MAX - 1)
  {
    var full := Join(docroot, uri);
    if |full| >= PATH_MAX {
      LongerIsCut(full, "index.html");
      LongerIsCut(full[..PATH_MAX - 1], "index.html");
    }
  }

  /** The resolved path is the root, one slash and the URI behind its own slash if it has one - as it stands when
      it does not end in a slash, followed by `index.html` when it does, and cut off behind 4095 bytes. */
  lemma ResolveIs(docroot: string, uri: string)
    ensures var full := (if docroot != "" && docroot[|docroot| - 1] == '/' then docroot[..|docroot| - 1] else docroot)
                        + "/" + (if uri != "" && uri[0] == '/' then uri[1..] else uri);
            var path := if full[|full| - 1] == '/' then full + "index.html" else full;
            Resolve(docroot, uri) == if |path| < 4096 then path else path[..4095]
  {
    var rest := if StartsWithSlash(uri) then uri[1..] else uri;
    JoinIsRootAndTail(docroot, uri);
    Regroup(Root(docroot), "/", rest);
    ResolveCutsOnce(docroot, uri);
  }

  lemma TailHasNoDots(uri: string, n: nat)
    requires NoDots(uri)
    ensures NoDots(Cut(Tail(uri), n))
  {
  }

  lemma IndexHasNoDots(cut: string, n: nat)
    requires NoDots(cut) && (cut == "" || EndsWithSlash(cut))
    ensures NoDots(cut + Cut("index.html", n))
  {
  }

  /** The path is the root and a tail, which is empty or starts with a slash. */
  lemma ResolveIsRootAndTail(docroot: string, uri: string) returns (t: string)
    requires |docroot| < PATH_MAX && NoDots(uri)
    ensures Resolve(docroot, uri) == Root(docroot) + t && NoDots(t) && (t != "" ==> t[0] == '/')
  {
    var root := Root(docroot);
    t := Cut(Tail(uri), PATH_MAX - 1 - |root|);
    JoinIsRootAndTail(docroot, uri);
    TailHasNoDots(uri, PATH_MAX - 1 - |root|);
    var path := root + t;
    Extends(root, Tail(uri));
    if EndsWithSlash(path) {
      var more := Cut("index.html", PATH_MAX - 1 - |path|);
      Extends(path, "index.html");
      IndexHasNoDots(t, PATH_MAX - 1 - |path|);
      Regroup(root, t, more);
      t := t + more;
    }
  }

  lemma ValidMeansNoDots(req: Request, protocol: Protocol)
    requires ValidStatus(req, protocol) == 200
    ensures NoDots(req.uri)
  {
    NoDotsIff(req.uri);
  }

  /** For every request that validation lets through, the path starts with the document root, goes on with a
      slash if it goes on at all, and never climbs: there is no `..` behind the root. */
  lemma ServedPathsStayBelowTheRoot(docroot: string, req: Request, protocol: Protocol)
    requires ValidStatus(req, protocol) == 200 && |docroot| < PATH_MAX
    ensures var path, root := Resolve(docroot, req.uri), Root(docroot);
            && root <= path && |path| < PATH_MAX
            && (|path| > |root| ==> path[|root|] == '/')
            && !Contains(path[|root|..], "..")
  {
    ValidMeansNoDots(req, protocol);
    var t := ResolveIsRootAndTail(docroot, req.uri);
    assert Resolve(docroot, req.uri)[|Root(docroot)|..] == t;
    NoDotsIff(t);
  }

  /** The path names a directory, that is ends in a slash, exactly when the joined name fills the whole buffer
      and is cut behind one. */
  lemma DirectoryOnlyWhenCut(docroot: string, uri: string)
    requires docroot != ""
    ensures EndsWithSlash(Resolve(docroot, uri)) <==>
              |Join(docroot, uri)| >= PATH_MAX - 1 && Join(docroot, uri)[PATH_MAX - 2] == '/'
  {
    var path := Cut(Join(docroot, uri), PATH_MAX - 1);
    if EndsWithSlash(path) {
      Extends(path, "index.html");
      var more := Cut("index.html", PATH_MAX - 1 - |path|);
      assert forall i :: 0 <= i < |more| ==> more[i] == "index.html"[i] && more[i] != '/';
    }
  }
}
