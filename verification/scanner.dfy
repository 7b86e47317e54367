/** Selection logic of the classpath annotation scanner
    (core/src/main/groovy/org/particleframework/core/io/scan/ClassPathAnnotationScanner.java).

    The scanner turns a package name into a resource path, asks the class loader for every
    classpath root exposing that path, walks directory roots recursively and archive roots
    entry by entry, hands each candidate class file to a bytecode reader, and keeps the classes
    whose annotation set holds the requested annotation.

    The file system, archive access, the bytecode reader and the class loader are abstract:
    roots are pre-enumerated data (a file tree, a list of archive entries) and the reader and
    loader are function-typed parameters. A Java exception is a `Failure` or a `None`; a
    caught exception is a resource that contributes nothing. */
module ClassPathScanner {
  import opened Wrappers

  type Bytes = seq<bv8>

  /** The class-file extension: both the literal scanFile checks file names against and
      ClassUtils.CLASS_EXTENSION, which archive entry names are checked against. */
  const ClassExtension: string := ".class"

  /** Compiler-generated (inner, anonymous, lambda) classes carry this marker in their name. */
  const SyntheticMarker: char := '$'

  const FileProtocol: string := "file"

  /** The protocols under which a root is opened as an archive. */
  const ArchiveProtocols: set<string> := {"jar", "zip", "war"}

  /** The two checked exceptions scanInputStream declares. */
  datatype ScanError = IoError | ClassNotFound

  /** What the bytecode reader extracts from one class file: its type name and the names of
      the annotations declared on the type. */
  datatype TypeInfo = TypeInfo(typeName: string, annotations: set<string>)

  /** The bytecode reader: parses a byte stream, or fails as the reader's constructor and
      visitor may (an I/O error, or a stream that is not a class file). */
  type ClassParser = Bytes -> Result<TypeInfo, ScanError>

  /** An archive entry, or a non-directory file: its name and the bytes its input stream
      yields, `None` when opening the stream fails with an I/O error. */
  datatype Entry = Entry(name: string, content: Option<Bytes>)

  /** A file-system node under a `file` root. `name` is the node's own name (File.getName),
      and `children` is the directory listing in listing order. `UnlistableDir` is a directory
      whose listing fails with an I/O error. */
  datatype FileNode =
    | File(name: string, content: Option<Bytes>)
    | Dir(name: string, children: seq<FileNode>)
    | UnlistableDir(name: string)

  /** What `url.openConnection()` yields for an archive URL: an I/O failure while connecting
      or opening the archive, a connection that is not an archive connection, or the
      archive's entries in enumeration order. */
  datatype Connection = ConnectFailure | NotJar | Jar(entries: seq<Entry>)

  /** One classpath resource: its protocol, the file its URI denotes (`None` when the URI is
      malformed), and the connection it opens. */
  datatype Url = Url(protocol: string, file: Option<FileNode>, connection: Connection)

  /** The class loader the scanner consults: the resources exposing a path (`None` when the
      lookup fails with an I/O error), and class loading by name (`None` when the class is not
      found). */
  datatype ClassLoader<C> = ClassLoader(getResources: string -> Option<seq<Url>>, loadClass: string -> Option<C>)

  datatype Scanner<C> = Scanner(classLoader: ClassLoader<C>, includeJars: bool)

  /** The fixed data of one scan call: the reader, the loader and the requested annotation. */
  datatype Query<C> = Query(parse: ClassParser, loadClass: string -> Option<C>, annotation: string)

  // ---------------------------------------------------------------------------------------
  // Configuration

  /** The constructor: archive scanning starts enabled. */
  function NewScanner<C>(loader: ClassLoader<C>): (s: Scanner<C>)
    ensures s.includeJars
    ensures s.classLoader == loader
  {
    Scanner(loader, true)
  }

  /** The includeJars setter: sets the flag and keeps the scanner's class loader. */
  function IncludeJars<C>(s: Scanner<C>, enabled: bool): (r: Scanner<C>)
    ensures r.includeJars == enabled
    ensures r.classLoader == s.classLoader
  {
    s.(includeJars := enabled)
  }

  // ---------------------------------------------------------------------------------------
  // Names

  predicate StartsWith(s: string, prefix: string) {
    prefix <= s
  }

  predicate EndsWith(s: string, suffix: string) {
    |suffix| <= |s| && s[|s| - |suffix|..] == suffix
  }

  /** Every '.' of the package name replaced by '/'. */
  function SlashSeparated(pkg: string): (r: string)
    ensures |r| == |pkg|
    ensures forall i :: 0 <= i < |pkg| ==> r[i] == (if pkg[i] == '.' then '/' else pkg[i])
  {
    if pkg == [] then []
    else [if pkg[0] == '.' then '/' else pkg[0]] + SlashSeparated(pkg[1..])
  }

  /** The resource path of a package: the package with '.' replaced by '/', plus one
      trailing '/'. */
  function PackagePath(pkg: string): (path: string)
    ensures |path| == |pkg| + 1
    ensures path[|pkg|] == '/'
    ensures '.' !in path
    ensures forall i :: 0 <= i < |pkg| && pkg[i] != '.' ==> path[i] == pkg[i]
    ensures forall i :: 0 <= i < |pkg| && pkg[i] == '.' ==> path[i] == '/'
  {
    SlashSeparated(pkg) + "/"
  }

  /** A file name scanFile reads: a class file that is not synthetic. */
  predicate IsClassFileName(name: string) {
    EndsWith(name, ClassExtension) && SyntheticMarker !in name
  }

  /** An archive entry name the archive filter lets through: inside the package path, a
      class file, and not synthetic. */
  predicate IsPackageClassEntry(pkgPath: string, name: string) {
    StartsWith(name, pkgPath) && EndsWith(name, ClassExtension) && SyntheticMarker !in name
  }

  // ---------------------------------------------------------------------------------------
  // The scanner as written

  /** scanInputStream: parse the class, and when the requested annotation is present load the
      class by its type name. `Success(Some(c))` is a class added to the result,
      `Success(None)` a class without the annotation, `Failure` a thrown exception. */
  function ScanInputStream<C>(q: Query<C>, bytes: Bytes): (r: Result<Option<C>, ScanError>)
    ensures r.Failure? <==>
              q.parse(bytes).Failure? ||
              (q.annotation in q.parse(bytes).value.annotations &&
               q.loadClass(q.parse(bytes).value.typeName).None?)
    ensures r.Success? && r.value.Some? <==>
              && q.parse(bytes).Success?
              && q.annotation in q.parse(bytes).value.annotations
              && q.loadClass(q.parse(bytes).value.typeName).Some?
    ensures r.Success? && r.value.Some? ==> q.loadClass(q.parse(bytes).value.typeName) == r.value
    ensures q.parse(bytes).Success? && q.annotation !in q.parse(bytes).value.annotations ==>
              r == Success(None)
  {
    match q.parse(bytes)
    case Failure(e) => Failure(e)
    case Success(info) =>
      if q.annotation in info.annotations then
        match q.loadClass(info.typeName)
        case None => Failure(ClassNotFound)
        case Some(c) => Success(Some(c))
      else Success(None)
  }

  /** A try block around scanInputStream whose catch clauses swallow both exceptions: a
      thrown exception adds nothing, and a returned class is added once. */
  function Caught<C>(r: Result<Option<C>, ScanError>): (found: seq<C>)
    ensures r.Failure? ==> found == []
    ensures |found| == 1 <==> r.Success? && r.value.Some?
    ensures |found| == 1 ==> found[0] == r.value.value
    ensures |found| <= 1
  {
    match r
    case Success(Some(c)) => [c]
    case _ => []
  }

  /** scanFile: a non-synthetic class file is opened and scanned; an I/O error opening it
      and any exception from scanning are swallowed. */
  function ScanFile<C>(q: Query<C>, name: string, content: Option<Bytes>): (found: seq<C>)
    ensures |found| <= 1
    ensures !IsClassFileName(name) ==> found == []
  {
    if EndsWith(name, ClassExtension) then
      if SyntheticMarker !in name then
        match content
        case None => []
        case Some(bytes) => Caught(ScanInputStream(q, bytes))
      else []
    else []
  }

  /** traverseFile: a directory is listed and each child traversed in listing order; a
      listing failure skips the directory; anything else is handed to scanFile. The result is
      what the reference accepts among the class files of the tree's leaves: every
      non-directory descendant reaches scanFile, in listing order. */
  function Traverse<C>(q: Query<C>, node: FileNode): (found: seq<C>)
    ensures found == Accepted(q, ClassFiles(Leaves(node)))
    decreases node
  {
    match node
    case File(name, content) =>
      ScanFileMatchesReference(q, name, content);
      ScanFile(q, name, content)
    case UnlistableDir(_) => []
    case Dir(_, children) => TraverseChildren(q, children)
  }

  /** The directory-listing loop of traverseFile: child after child, each child's subtree
      contributes what the reference accepts among its class files. */
  function TraverseChildren<C>(q: Query<C>, children: seq<FileNode>): (found: seq<C>)
    ensures found == Accepted(q, ClassFiles(LeavesOf(children)))
    decreases children
  {
    if children == [] then []
    else
      ClassFilesAppend(Leaves(children[0]), LeavesOf(children[1..]));
      AcceptedAppend(q, ClassFiles(Leaves(children[0])), ClassFiles(LeavesOf(children[1..])));
      Traverse(q, children[0]) + TraverseChildren(q, children[1..])
  }

  /** The archive entry filter: the entries whose name passes IsPackageClassEntry, in
      enumeration order. */
  function PackageEntries(pkgPath: string, entries: seq<Entry>): (r: seq<Entry>)
    ensures |r| <= |entries|
    ensures forall e :: e in r <==> e in entries && IsPackageClassEntry(pkgPath, e.name)
  {
    if entries == [] then []
    else
      (if IsPackageClassEntry(pkgPath, entries[0].name) then [entries[0]] else [])
      + PackageEntries(pkgPath, entries[1..])
  }

  /** The forEach over filtered archive entries: each entry's stream is opened and scanned;
      an I/O error and a class-not-found are swallowed per entry, and the loop goes on. The
      result is what the reference accepts among the entries, in order. */
  function ScanEntries<C>(q: Query<C>, entries: seq<Entry>): (found: seq<C>)
    ensures found == Accepted(q, entries)
  {
    if entries == [] then []
    else
      (match entries[0].content
       case None => []
       case Some(bytes) => Caught(ScanInputStream(q, bytes)))
      + ScanEntries(q, entries[1..])
  }

  /** The archive branch of the resource loop: the entries the name filter admits are
      scanned in enumeration order. */
  function ScanArchive<C>(q: Query<C>, pkgPath: string, entries: seq<Entry>): (found: seq<C>)
    ensures found == Accepted(q, PackageEntries(pkgPath, entries))
    ensures forall e :: e in entries && IsPackageClassEntry(pkgPath, e.name) && Accept(q, e).Some? ==>
              Accept(q, e).value in found
    ensures forall i :: 0 <= i < |found| ==>
              exists e :: e in entries && IsPackageClassEntry(pkgPath, e.name) && Accept(q, e) == Some(found[i])
  {
    ScanEntries(q, PackageEntries(pkgPath, entries))
  }

  /** Whether a resource is opened as an archive: archive scanning is on and the protocol is
      one of jar, zip, war. */
  predicate ScansArchive<C>(s: Scanner<C>, url: Url) {
    url.protocol != FileProtocol && s.includeJars && url.protocol in ArchiveProtocols
  }

  /** A resource whose archive connection fails: the I/O error is not caught per resource and
      ends the whole scan. */
  predicate Aborts<C>(s: Scanner<C>, url: Url) {
    ScansArchive(s, url) && url.connection.ConnectFailure?
  }

  /** One iteration of the resource loop: the classes one resource contributes, or `None`
      when an I/O error escapes to the scan's outer handler. */
  function ScanUrl<C>(s: Scanner<C>, q: Query<C>, pkgPath: string, url: Url): (r: Option<seq<C>>)
    ensures r.None? <==> Aborts(s, url)
    ensures url.protocol != FileProtocol && !ScansArchive(s, url) ==> r == Some([])
    ensures url.protocol == FileProtocol && url.file.None? ==> r == Some([])
    ensures r == if Aborts(s, url) then None else Some(Accepted(q, Candidates(s, pkgPath, url)))
  {
    if url.protocol == FileProtocol then
      match url.file
      case None => Some([])
      case Some(root) => Some(Traverse(q, root))
    else if s.includeJars && url.protocol in ArchiveProtocols then
      match url.connection
      case ConnectFailure => None
      case NotJar => Some([])
      case Jar(entries) => Some(ScanArchive(q, pkgPath, entries))
    else Some([])
  }

  /** The resource loop: the classes of every resource, appended in enumeration order, or
      `None` once an I/O error escapes. It fails exactly when some archive connection fails,
      and otherwise keeps what the reference accepts among all candidates, in order. */
  function ScanUrls<C>(s: Scanner<C>, q: Query<C>, pkgPath: string, urls: seq<Url>): (r: Option<seq<C>>)
    ensures r == if AnyAborts(s, urls) then None else Some(Accepted(q, AllCandidates(s, pkgPath, urls)))
  {
    if urls == [] then Some([])
    else
      AcceptedAppend(q, Candidates(s, pkgPath, urls[0]), AllCandidates(s, pkgPath, urls[1..]));
      assert forall u :: u in urls <==> u == urls[0] || u in urls[1..];
      match ScanUrl(s, q, pkgPath, urls[0])
      case None => None
      case Some(head) =>
        match ScanUrls(s, q, pkgPath, urls[1..])
        case None => None
        case Some(tail) => Some(head + tail)
  }

  /** scan: a null package yields nothing; otherwise the resources exposing the package path
      are scanned, and an I/O error escaping the loop (or the resource lookup) yields nothing. */
  function Scan<C>(s: Scanner<C>, parse: ClassParser, annotation: string, pkg: Option<string>): (classes: seq<C>)
    ensures pkg.None? ==> classes == []
    ensures pkg.Some? && s.classLoader.getResources(PackagePath(pkg.value)).None? ==> classes == []
  {
    match pkg
    case None => []
    case Some(p) =>
      var path := PackagePath(p);
      match s.classLoader.getResources(path)
      case None => []
      case Some(urls) =>
        match ScanUrls(s, Query(parse, s.classLoader.loadClass, annotation), path, urls)
        case None => []
        case Some(classes) => classes
  }

  // ---------------------------------------------------------------------------------------
  // Reference definition: which units reach the reader, and which of them are kept

  /** The non-directory descendants of a node, in listing order (a file root is its own only
      leaf). */
  function Leaves(node: FileNode): seq<Entry>
    decreases node
  {
    match node
    case File(name, content) => [Entry(name, content)]
    case UnlistableDir(_) => []
    case Dir(_, children) => LeavesOf(children)
  }

  function LeavesOf(children: seq<FileNode>): seq<Entry>
    decreases children
  {
    if children == [] then [] else Leaves(children[0]) + LeavesOf(children[1..])
  }

  /** The leaves whose name passes IsClassFileName, in order. */
  function ClassFiles(leaves: seq<Entry>): (r: seq<Entry>)
    ensures |r| <= |leaves|
    ensures forall e :: e in r <==> e in leaves && IsClassFileName(e.name)
  {
    if leaves == [] then []
    else (if IsClassFileName(leaves[0].name) then [leaves[0]] else []) + ClassFiles(leaves[1..])
  }

  /** The units one resource hands to the reader, in enumeration order. */
  function Candidates<C>(s: Scanner<C>, pkgPath: string, url: Url): (units: seq<Entry>)
    ensures forall e :: e in units ==> EndsWith(e.name, ClassExtension) && SyntheticMarker !in e.name
    ensures forall e :: e in units && url.protocol != FileProtocol ==> StartsWith(e.name, pkgPath)
    ensures units != [] ==> url.protocol == FileProtocol || ScansArchive(s, url)
  {
    if url.protocol == FileProtocol then
      match url.file
      case None => []
      case Some(root) => ClassFiles(Leaves(root))
    else if ScansArchive(s, url) && url.connection.Jar? then
      PackageEntries(pkgPath, url.connection.entries)
    else []
  }

  /** The units every resource hands to the reader, resource after resource. */
  function AllCandidates<C>(s: Scanner<C>, pkgPath: string, urls: seq<Url>): (units: seq<Entry>)
    ensures forall e :: e in units ==> EndsWith(e.name, ClassExtension) && SyntheticMarker !in e.name
  {
    if urls == [] then [] else Candidates(s, pkgPath, urls[0]) + AllCandidates(s, pkgPath, urls[1..])
  }

  predicate AnyAborts<C>(s: Scanner<C>, urls: seq<Url>) {
    exists u :: u in urls && Aborts(s, u)
  }

  /** The class a unit yields: its stream opens, it parses, it carries the requested
      annotation, and the loader resolves its type name. */
  function Accept<C>(q: Query<C>, e: Entry): Option<C> {
    if e.content.Some? && q.parse(e.content.value).Success?
       && q.annotation in q.parse(e.content.value).value.annotations
    then q.loadClass(q.parse(e.content.value).value.typeName)
    else None
  }

  /** The classes the units yield, in unit order. */
  function Accepted<C>(q: Query<C>, units: seq<Entry>): (found: seq<C>)
    ensures |found| <= |units|
    ensures forall e :: e in units && Accept(q, e).Some? ==> Accept(q, e).value in found
    ensures forall i :: 0 <= i < |found| ==> exists e :: e in units && Accept(q, e) == Some(found[i])
  {
    if units == [] then []
    else
      var rest := Accepted(q, units[1..]);
      assert forall e :: e in units[1..] ==> e in units;
      assert forall e :: e in units ==> e == units[0] || e in units[1..];
      OptionToSeq(Accept(q, units[0])) + rest
  }

  // ---------------------------------------------------------------------------------------
  // The scanner as written agrees with the reference definition

  lemma {:induction false} AcceptedAppend<C>(q: Query<C>, a: seq<Entry>, b: seq<Entry>)
    ensures Accepted(q, a + b) == Accepted(q, a) + Accepted(q, b)
    decreases a
  {
    if a == [] {
      assert a + b == b;
    } else {
      assert (a + b)[0] == a[0];
      assert (a + b)[1..] == a[1..] + b;
      AcceptedAppend(q, a[1..], b);
    }
  }

  lemma {:induction false} ClassFilesAppend(a: seq<Entry>, b: seq<Entry>)
    ensures ClassFiles(a + b) == ClassFiles(a) + ClassFiles(b)
    decreases a
  {
    if a == [] {
      assert a + b == b;
    } else {
      assert (a + b)[0] == a[0];
      assert (a + b)[1..] == a[1..] + b;
      ClassFilesAppend(a[1..], b);
    }
  }

  /** The archive entry filter keeps enumeration order: filtering two runs of entries is
      filtering each, concatenated. */
  lemma {:induction false} PackageEntriesAppend(pkgPath: string, a: seq<Entry>, b: seq<Entry>)
    ensures PackageEntries(pkgPath, a + b) == PackageEntries(pkgPath, a) + PackageEntries(pkgPath, b)
    decreases a
  {
    if a == [] {
      assert a + b == b;
    } else {
      assert (a + b)[0] == a[0];
      assert (a + b)[1..] == a[1..] + b;
      PackageEntriesAppend(pkgPath, a[1..], b);
    }
  }

  /** A scanned stream contributes exactly the class the reference accepts for it. */
  lemma CaughtScanIsAccept<C>(q: Query<C>, name: string, bytes: Bytes)
    ensures Caught(ScanInputStream(q, bytes)) == OptionToSeq(Accept(q, Entry(name, Some(bytes))))
  {
  }

  /** scanFile reads a file exactly when its name passes the class-file filter, and keeps
      what the reference accepts. */
  lemma ScanFileMatchesReference<C>(q: Query<C>, name: string, content: Option<Bytes>)
    ensures ScanFile(q, name, content) == Accepted(q, ClassFiles([Entry(name, content)]))
  {
  }

  /** The whole scan of a package: nothing when the resource lookup fails or some archive
      connection fails, otherwise the accepted classes of all candidates in enumeration
      order. */
  lemma ScanMatchesReference<C>(s: Scanner<C>, parse: ClassParser, annotation: string, pkg: string)
    ensures Scan(s, parse, annotation, Some(pkg)) ==
              match s.classLoader.getResources(PackagePath(pkg))
              case None => []
              case Some(urls) =>
                if AnyAborts(s, urls) then []
                else Accepted(Query(parse, s.classLoader.loadClass, annotation), AllCandidates(s, PackagePath(pkg), urls))
  {
    var path := PackagePath(pkg);
  }

  /** A class is in the scan result iff some candidate unit of the package (a non-synthetic
      class file) parses, carries the requested annotation, and its type name loads to that
      class. */
  lemma ScanFindsExactlyAnnotatedClasses<C>(s: Scanner<C>, parse: ClassParser, annotation: string, pkg: string, urls: seq<Url>)
    requires s.classLoader.getResources(PackagePath(pkg)) == Some(urls)
    requires !AnyAborts(s, urls)
    ensures forall e :: e in AllCandidates(s, PackagePath(pkg), urls) && e.content.Some?
                        && parse(e.content.value).Success?
                        && annotation in parse(e.content.value).value.annotations
                        && s.classLoader.loadClass(parse(e.content.value).value.typeName).Some?
                        ==> s.classLoader.loadClass(parse(e.content.value).value.typeName).value
                              in Scan(s, parse, annotation, Some(pkg))
    ensures forall i :: 0 <= i < |Scan(s, parse, annotation, Some(pkg))| ==>
              exists e :: e in AllCandidates(s, PackagePath(pkg), urls) && e.content.Some?
                          && parse(e.content.value).Success?
                          && annotation in parse(e.content.value).value.annotations
                          && s.classLoader.loadClass(parse(e.content.value).value.typeName)
                               == Some(Scan(s, parse, annotation, Some(pkg))[i])
  {
    ScanMatchesReference(s, parse, annotation, pkg);
  }

  // ---------------------------------------------------------------------------------------
  // Protocol gating, error skipping and order

  /** The candidates of two lists of resources are the candidates of each, in order. */
  lemma {:induction false} AllCandidatesAppend<C>(s: Scanner<C>, pkgPath: string, a: seq<Url>, b: seq<Url>)
    ensures AllCandidates(s, pkgPath, a + b) == AllCandidates(s, pkgPath, a) + AllCandidates(s, pkgPath, b)
    decreases a
  {
    if a != [] {
      assert (a + b)[0] == a[0];
      assert (a + b)[1..] == a[1..] + b;
      AllCandidatesAppend(s, pkgPath, a[1..], b);
      var head := Candidates(s, pkgPath, a[0]);
      assert head + (AllCandidates(s, pkgPath, a[1..]) + AllCandidates(s, pkgPath, b))
          == (head + AllCandidates(s, pkgPath, a[1..])) + AllCandidates(s, pkgPath, b);
    } else {
      assert a + b == b;
    }
  }

  /** The resource loop over two lists is the loop over each, concatenated: it fails when
      either fails, and otherwise keeps the first list's classes before the second's. */
  lemma ScanUrlsAppend<C>(s: Scanner<C>, q: Query<C>, pkgPath: string, a: seq<Url>, b: seq<Url>)
    ensures ScanUrls(s, q, pkgPath, a + b) ==
              if ScanUrls(s, q, pkgPath, a).Some? && ScanUrls(s, q, pkgPath, b).Some?
              then Some(ScanUrls(s, q, pkgPath, a).value + ScanUrls(s, q, pkgPath, b).value)
              else None
  {
    AllCandidatesAppend(s, pkgPath, a, b);
    AcceptedAppend(q, AllCandidates(s, pkgPath, a), AllCandidates(s, pkgPath, b));
    assert forall u :: u in a + b <==> u in a || u in b;
  }

  /** A resource skipped because of a caught failure (or an unsupported protocol) does not
      affect what the resources before and after it contribute. */
  lemma SkippedResourceKeepsOthers<C>(s: Scanner<C>, q: Query<C>, pkgPath: string, before: seq<Url>, url: Url, after: seq<Url>)
    requires ScanUrl(s, q, pkgPath, url) == Some([])
    ensures ScanUrls(s, q, pkgPath, before + [url] + after) == ScanUrls(s, q, pkgPath, before + after)
  {
    ScanUrlsAppend(s, q, pkgPath, before + [url], after);
    ScanUrlsAppend(s, q, pkgPath, before, [url]);
    ScanUrlsAppend(s, q, pkgPath, before, after);
    assert ScanUrls(s, q, pkgPath, [url]) == Some([]) by {
      assert [url][0] == url;
      assert [url][1..] == [];
      assert ScanUrls(s, q, pkgPath, [url][1..]) == Some([]);
      var none: seq<C> := [];
      assert none + none == none;
    }
    if ScanUrls(s, q, pkgPath, before).Some? {
      assert ScanUrls(s, q, pkgPath, before).value + [] == ScanUrls(s, q, pkgPath, before).value;
    }
  }

  /** An archive whose connection fails empties the whole scan, including the classes of the
      resources enumerated before it. */
  lemma AbortEmptiesScan<C>(s: Scanner<C>, parse: ClassParser, annotation: string, pkg: string, urls: seq<Url>)
    requires s.classLoader.getResources(PackagePath(pkg)) == Some(urls)
    requires AnyAborts(s, urls)
    ensures Scan(s, parse, annotation, Some(pkg)) == []
  {
    ScanMatchesReference(s, parse, annotation, pkg);
  }

  /** The `file` resources among a list, in order. */
  function FileUrls(urls: seq<Url>): (r: seq<Url>)
    ensures forall u :: u in r <==> u in urls && u.protocol == FileProtocol
  {
    if urls == [] then []
    else (if urls[0].protocol == FileProtocol then [urls[0]] else []) + FileUrls(urls[1..])
  }

  /** With archive scanning off, only the `file` resources contribute: the scan equals the
      scan of the `file` resources alone. */
  lemma {:induction false} ArchivesIgnoredWhenDisabled<C>(s: Scanner<C>, q: Query<C>, pkgPath: string, urls: seq<Url>)
    requires !s.includeJars
    ensures ScanUrls(s, q, pkgPath, urls) == ScanUrls(s, q, pkgPath, FileUrls(urls))
    ensures ScanUrls(s, q, pkgPath, urls).Some?
    decreases urls
  {
    if urls != [] {
      ArchivesIgnoredWhenDisabled(s, q, pkgPath, urls[1..]);
      var head := if urls[0].protocol == FileProtocol then [urls[0]] else [];
      ScanUrlsAppend(s, q, pkgPath, head, FileUrls(urls[1..]));
      if head == [] {
        assert head + FileUrls(urls[1..]) == FileUrls(urls[1..]);
        assert ScanUrl(s, q, pkgPath, urls[0]) == Some([]);
        assert [] + ScanUrls(s, q, pkgPath, urls[1..]).value == ScanUrls(s, q, pkgPath, urls[1..]).value;
      } else {
        assert head[1..] == [];
      }
    }
  }

  // ---------------------------------------------------------------------------------------
  // A worked example

  /** The archive filter of the example below: of com/acme/Foo.class and its synthetic
      com/acme/Foo$1.class, only the first passes for package com.acme. */
  lemma AcmeEntryFilter(foo: Entry, inner: Entry)
    requires foo.name == "com/acme/Foo.class" && inner.name == "com/acme/Foo$1.class"
    ensures PackageEntries("com/acme/", [foo, inner]) == [foo]
  {
    assert IsPackageClassEntry("com/acme/", foo.name);
    assert !IsPackageClassEntry("com/acme/", inner.name) by {
      assert inner.name[12] == SyntheticMarker;
    }
    assert [foo, inner][1..] == [inner];
    assert [inner][1..] == [];
  }

  /** The resource loop of the example below. */
  lemma AcmeResourceLoop<C>(loader: ClassLoader<C>, parse: ClassParser, foo: Entry, inner: Entry, fooClass: C)
    requires foo.name == "com/acme/Foo.class" && foo.content.Some?
    requires inner.name == "com/acme/Foo$1.class"
    requires parse(foo.content.value) == Success(TypeInfo("com.acme.Foo", {"Service"}))
    requires loader.loadClass("com.acme.Foo") == Some(fooClass)
    ensures ScanUrls(NewScanner(loader), Query(parse, loader.loadClass, "Service"), "com/acme/",
                     [Url("jar", None, Jar([foo, inner]))]) == Some([fooClass])
  {
    var s := NewScanner(loader);
    var q := Query(parse, loader.loadClass, "Service");
    var url := Url("jar", None, Jar([foo, inner]));
    AcmeEntryFilter(foo, inner);
    assert ScansArchive(s, url);
    assert ScanEntries(q, [foo]) == [fooClass] by {
      assert [foo][1..] == [];
    }
    assert ScanUrl(s, q, "com/acme/", url) == Some([fooClass]);
    assert [url][1..] == [];
  }

  /** An archive holding com/acme/Foo.class, which the reader parses as carrying @Service,
      and its synthetic com/acme/Foo$1.class, whatever the reader would make of it: scanning
      package com.acme with archives enabled yields Foo alone. */
  lemma AcmeArchiveExample<C>(loader: ClassLoader<C>, parse: ClassParser, foo: Entry, inner: Entry, fooClass: C)
    requires foo.name == "com/acme/Foo.class" && foo.content.Some?
    requires inner.name == "com/acme/Foo$1.class"
    requires parse(foo.content.value) == Success(TypeInfo("com.acme.Foo", {"Service"}))
    requires loader.getResources("com/acme/") == Some([Url("jar", None, Jar([foo, inner]))])
    requires loader.loadClass("com.acme.Foo") == Some(fooClass)
    ensures Scan(NewScanner(loader), parse, "Service", Some("com.acme")) == [fooClass]
  {
    assert PackagePath("com.acme") == "com/acme/";
    AcmeResourceLoop(loader, parse, foo, inner, fooClass);
  }
}
