# Classpath annotation scanning and environment-aware annotation values, in Dafny

This project models two pieces of decision logic and proves properties about them.

- **The classpath annotation scanner** (`ClassPathAnnotationScanner`). It finds the classes of a
  package that carry a given annotation, without loading classes that do not qualify. It turns the
  package name into a resource path and asks the class loader for every classpath root exposing
  that path. `file` roots are walked recursively. `jar`/`zip`/`war` roots are read entry by entry,
  but only when archive scanning is enabled. Every class file that is not synthetic goes to a
  bytecode reader. The scanner keeps a class when its annotation set contains the requested
  annotation and the class loader can load its type name. A checked exception caught inside the
  loop (a malformed URI, an unlistable directory, an unreadable file or entry, a class that is
  not found) skips only what it concerns. An I/O error that escapes the resource loop empties the
  whole result.
- **The environment annotation value** (`EnvironmentAnnotationValue`). It wraps an annotation value
  with a configuration environment. If the environment is present, it installs a value mapper that
  sends every string containing `${` through the environment's required-placeholder resolver.
  Every other value passes through unchanged. If the environment is null, no mapper is installed.
  The wrapper takes its default member values from the default-value provider, using the
  annotation name. Both `getAnnotations` overrides re-wrap every nested annotation value with the
  same environment.

Files:

- `wrappers.dfy`: `Option` (a nullable reference, or a lookup that can miss) and `Result` (a call
  that returns or throws).
- `scanner.dfy`, module `ClassPathScanner`. It holds the scanner as written, with the
  `try`/`catch` blocks made explicit. `Scan`, `Traverse`, `ScanFile` and `ScanInputStream` follow
  the Java methods of the same names. The loops are recursive functions: `ScanUrls` is the
  resource loop, `ScanUrl` its body, `ScanArchive` the archive branch, `ScanEntries` the
  per-entry `forEach`, `TraverseChildren` the directory-listing loop, and `Caught` the
  `try`/`catch` around `scanInputStream`. It also holds an independent reference definition:
  - `Leaves` lists the files of a tree.
  - `ClassFiles` and `PackageEntries` are the two name filters.
  - `Candidates` and `AllCandidates` list the units handed to the reader.
  - `Accept` and `Accepted` say which classes those units yield.

  The contracts of the loop functions, and the lemmas after them, state that the scanner equals
  the reference definition.
- `environment_value.dfy`, module `EnvironmentAnnotationValues`. It holds the value tree, the
  mapper (`MapValue`), the constructor (`Wrap`), the two overrides, and the lemmas about reads and
  nested values at any depth.

Collaborators that the scanner and the wrapper call are parameters, not code:

- The bytecode reader is `ClassParser`: bytes to a type name and an annotation set, or an error.
- `ClassLoader.getResources` is a function from a path to `Option<seq<Url>>`. `None` stands for
  an `IOException`.
- `ClassLoader.loadClass` returns `Option<C>`. `None` stands for `ClassNotFoundException`.
- The placeholder resolver is `Environment.resolveRequiredPlaceholders`.
- The default-value provider and the base class's `getAnnotations` lookups are fields of
  `Support`.

Resources are data that has already been enumerated:

- A `Url` is a protocol, the file tree its URI denotes, and the connection it opens.
  - The file tree is `None` when the URI is malformed.
  - The connection is `ConnectFailure`, `NotJar` or the archive's entries.
- A file tree is made of `File`, `Dir` and `UnlistableDir` nodes.
- A file or entry has no content when opening its stream fails.

Behaviour of the code that the model keeps:

- **A failing archive connection aborts the whole scan.** An I/O error from `openConnection()`
  or `getJarFile()` (lines 105 and 108 of `ClassPathAnnotationScanner.java`) is not caught per
  resource, unlike the per-entry and per-file I/O errors. It reaches the outer handler at line
  138, which returns an empty stream, so classes found in earlier resources are discarded. This is
  `Aborts` and `AbortEmptiesScan`.
- **Only a null package short-circuits** (line 84). An empty package name is scanned under the
  path `/`.
- **Results keep enumeration order.** Each loop appends to one list in the order it visits
  resources, directory children and archive entries (`ScanUrlsAppend`, `PackageEntriesAppend`,
  `ClassFilesAppend`, and the contract of `ScanUrls`).
- **Duplicates are kept.** A class exposed by two roots appears twice.

## Model

| member | source | states |
|---|---|---|
| ClassPathScanner.NewScanner | core/src/main/groovy/org/particleframework/core/io/scan/ClassPathAnnotationScanner.java:55-58 | A new scanner keeps the class loader it is given and starts with archive scanning enabled. |
| ClassPathScanner.IncludeJars | core/src/main/groovy/org/particleframework/core/io/scan/ClassPathAnnotationScanner.java:70-73 | The setter sets the archive flag to its argument and returns a scanner with the same class loader. |
| ClassPathScanner.PackagePath | core/src/main/groovy/org/particleframework/core/io/scan/ClassPathAnnotationScanner.java:87 | The path is one longer than the package and ends in '/'. It contains no '.'. Each '.' of the package becomes '/', and every other character stays in place. |
| ClassPathScanner.ScanInputStream | core/src/main/groovy/org/particleframework/core/io/scan/ClassPathAnnotationScanner.java:185-192 | Reading a class throws exactly when parsing fails, or when the annotation is present and the type name does not load. It returns a class exactly when the stream parses, carries the annotation and its type name loads, and that class is the loaded one. A parsed class without the annotation adds nothing. |
| ClassPathScanner.Caught | core/src/main/groovy/org/particleframework/core/io/scan/ClassPathAnnotationScanner.java:115-125 | The `try`/`catch` around `scanInputStream` (also lines 170-180) adds nothing when an exception is thrown, and adds exactly one class, the returned one, when a class is returned. |
| ClassPathScanner.CaughtScanIsAccept | core/src/main/groovy/org/particleframework/core/io/scan/ClassPathAnnotationScanner.java:115-125 | A caught scan of one stream contributes exactly the class the reference accepts for that stream, or nothing. |
| ClassPathScanner.ScanFile | core/src/main/groovy/org/particleframework/core/io/scan/ClassPathAnnotationScanner.java:165-183 | A file whose name does not end in `.class`, or that contains `$`, contributes nothing. Any file contributes at most one class. |
| ClassPathScanner.PackageEntries | core/src/main/groovy/org/particleframework/core/io/scan/ClassPathAnnotationScanner.java:109-113 | An archive entry passes the filter iff its name starts with the package path, ends with the class extension and contains no `$`. |
| ClassPathScanner.PackageEntriesAppend | core/src/main/groovy/org/particleframework/core/io/scan/ClassPathAnnotationScanner.java:109-114 | The archive filter keeps enumeration order: filtering two runs of entries gives the filtered first run followed by the filtered second run. |
| ClassPathScanner.ClassFiles | core/src/main/groovy/org/particleframework/core/io/scan/ClassPathAnnotationScanner.java:165-169 | A file is read iff its name ends with `.class` and contains no `$`. |
| ClassPathScanner.ClassFilesAppend | core/src/main/groovy/org/particleframework/core/io/scan/ClassPathAnnotationScanner.java:165-169 | The file-name filter keeps listing order: filtering two runs of files gives the filtered first run followed by the filtered second run. |
| ClassPathScanner.ScanUrl | core/src/main/groovy/org/particleframework/core/io/scan/ClassPathAnnotationScanner.java:93-135 | A resource ends the scan iff archive scanning is on, its protocol is jar, zip or war, and its connection fails. Otherwise it contributes the classes the reference accepts among its candidate units. Any other protocol that is not `file` contributes nothing. So does a `file` resource with a malformed URI. |
| ClassPathScanner.Scan | core/src/main/groovy/org/particleframework/core/io/scan/ClassPathAnnotationScanner.java:83-142 | A null package yields an empty result. So does a failing resource lookup. |
| ClassPathScanner.Candidates | core/src/main/groovy/org/particleframework/core/io/scan/ClassPathAnnotationScanner.java:93-135 | Every unit a resource hands to the reader has a `.class` name without `$`. Archive units also start with the package path. Only a `file` resource, or an archive resource with archives enabled, hands over any unit. |
| ClassPathScanner.AllCandidates | core/src/main/groovy/org/particleframework/core/io/scan/ClassPathAnnotationScanner.java:92-136 | No name containing `$` reaches the reader, whether it comes from a directory or from an archive. |
| ClassPathScanner.Accepted | core/src/main/groovy/org/particleframework/core/io/scan/ClassPathAnnotationScanner.java:185-191 | The kept classes are exactly those some unit yields. A unit yields a class when its stream opens, it parses, it carries the annotation and its type name loads. |
| ClassPathScanner.ScanFileMatchesReference | core/src/main/groovy/org/particleframework/core/io/scan/ClassPathAnnotationScanner.java:165-183 | scanFile keeps exactly what the reference keeps from the file once the file-name filter has passed it. |
| ClassPathScanner.Traverse | core/src/main/groovy/org/particleframework/core/io/scan/ClassPathAnnotationScanner.java:144-163 | Traversing a root keeps exactly what the reference accepts among the class files of its non-directory descendants, in listing order. A root that is a file is scanned directly, and an unlistable directory contributes nothing. |
| ClassPathScanner.TraverseChildren | core/src/main/groovy/org/particleframework/core/io/scan/ClassPathAnnotationScanner.java:146-154 | The listing loop keeps, child after child, what the reference accepts among the class files of each child's subtree. |
| ClassPathScanner.ScanEntries | core/src/main/groovy/org/particleframework/core/io/scan/ClassPathAnnotationScanner.java:114-126 | The per-entry loop keeps exactly the classes the reference accepts among the entries, in order. An entry whose stream fails, or that throws, is skipped without stopping the loop. |
| ClassPathScanner.ScanArchive | core/src/main/groovy/org/particleframework/core/io/scan/ClassPathAnnotationScanner.java:109-126 | An archive contributes exactly the classes accepted among the entries that pass the name filter, in enumeration order. Every accepted filtered entry's class is kept, and every kept class comes from such an entry. |
| ClassPathScanner.ScanUrls | core/src/main/groovy/org/particleframework/core/io/scan/ClassPathAnnotationScanner.java:92-136 | The resource loop fails iff some resource aborts. Otherwise it returns the classes the reference accepts among all candidate units, in enumeration order. |
| ClassPathScanner.ScanMatchesReference | core/src/main/groovy/org/particleframework/core/io/scan/ClassPathAnnotationScanner.java:83-142 | The whole scan is empty when the resource lookup fails or some archive connection fails. Otherwise it is the ordered list of classes the candidate units yield. |
| ClassPathScanner.ScanFindsExactlyAnnotatedClasses | core/src/main/groovy/org/particleframework/core/io/scan/ClassPathAnnotationScanner.java:185-191 | A class is in the scan result iff some candidate unit parses, carries the requested annotation, and has a type name that loads to that class. Both directions are proved. |
| ClassPathScanner.ScanUrlsAppend | core/src/main/groovy/org/particleframework/core/io/scan/ClassPathAnnotationScanner.java:90-93 | Scanning two lists of resources one after the other gives the first list's classes followed by the second's. It fails if either list fails. |
| ClassPathScanner.SkippedResourceKeepsOthers | core/src/main/groovy/org/particleframework/core/io/scan/ClassPathAnnotationScanner.java:96-103 | A resource skipped after a caught failure, or for its protocol, leaves the contributions of the resources before and after it unchanged. |
| ClassPathScanner.AbortEmptiesScan | core/src/main/groovy/org/particleframework/core/io/scan/ClassPathAnnotationScanner.java:138-139 | An I/O error escaping the resource loop empties the whole result, including classes found earlier. |
| ClassPathScanner.ArchivesIgnoredWhenDisabled | core/src/main/groovy/org/particleframework/core/io/scan/ClassPathAnnotationScanner.java:104 | With archive scanning off, the scan never fails in the loop and equals the scan of the `file` resources alone. |
| ClassPathScanner.AcmeArchiveExample | core/src/main/groovy/org/particleframework/core/io/scan/ClassPathAnnotationScanner.java:104-126 | Take an archive holding `com/acme/Foo.class`, annotated @Service, and `com/acme/Foo$1.class`. Scanning `com.acme` yields exactly Foo, whatever the reader makes of the synthetic entry. |
| EnvironmentAnnotationValues.MapValue | inject/src/main/java/io/micronaut/inject/annotation/EnvironmentAnnotationValue.java:49-57 | A string containing `${` becomes the resolver's result, and a resolver failure propagates instead of returning the raw string. A string without `${` is returned unchanged. Any non-string value is returned unchanged. |
| EnvironmentAnnotationValues.Wrap | inject/src/main/java/io/micronaut/inject/annotation/EnvironmentAnnotationValue.java:45-59 | The wrapper keeps the target's name and stored values. Its defaults are those declared for the target's annotation name. It installs a mapper iff the environment is present, and it holds the environment it was given. |
| EnvironmentAnnotationValues.WrapAll | inject/src/main/java/io/micronaut/inject/annotation/EnvironmentAnnotationValue.java:63-65 | Re-wrapping a list keeps its length and order, and each element is wrapped with the same environment. |
| EnvironmentAnnotationValues.GetAnnotationsOfType | inject/src/main/java/io/micronaut/inject/annotation/EnvironmentAnnotationValue.java:61-66 | getAnnotations(member, type) on a wrapper returns a list with the base result's length and order, and each element is the base element wrapped with the same environment. A plain value returns the base result. |
| EnvironmentAnnotationValues.GetAnnotations | inject/src/main/java/io/micronaut/inject/annotation/EnvironmentAnnotationValue.java:68-73 | getAnnotations(member) behaves the same way: same length and order, and each element is the base element wrapped with the same environment. |
| EnvironmentAnnotationValues.ReadThroughWrapper | inject/src/main/java/io/micronaut/inject/annotation/EnvironmentAnnotationValue.java:46-57 | A member read through a wrapper gives the stored value, or else the default declared for the annotation name. Without an environment that value is returned unadapted. With one, it passes through the placeholder mapper. |
| EnvironmentAnnotationValues.ReadStringsAreResolved | inject/src/main/java/io/micronaut/inject/annotation/EnvironmentAnnotationValue.java:49-57 | Suppose the resolver never leaves a marker in what it returns. Then no string read successfully through a wrapper still contains `${`. |
| EnvironmentAnnotationValues.NestedValuesStayBound | inject/src/main/java/io/micronaut/inject/annotation/EnvironmentAnnotationValue.java:61-73 | Every annotation value reached from a wrapper through any chain of either override is bound to the same environment. It carries the same mapper and the defaults for its own annotation name, at any depth. |
| EnvironmentAnnotationValues.NestedReadsAreAdapted | inject/src/main/java/io/micronaut/inject/annotation/EnvironmentAnnotationValue.java:61-73 | Reading a member of any nested value reached from a wrapper is adapted with the wrapper's environment, at any depth. |

## Left out

- File-system, URL, `URLConnection`, `JarURLConnection` and `JarFile` access, and stream opening
  and closing, are input/output. Roots, directory listings, archive entries and stream contents
  are given as data.
- The class-file parsing of `AnnotationClassReader` and `AnnotatedTypeInfoVisitor` is not part of
  this model. It is the abstract `ClassParser`, which may fail.
- `ClassLoader.getResources` and `ClassLoader.loadClass` are host facilities. They are function
  fields of `ClassLoader`. The no-argument constructor is not modelled, because it only picks the
  scanner class's own loader. `NewScanner` takes the loader.
- Unchecked exceptions and errors are not modelled. These are `new File(uri)` rejecting a URI,
  a directory iteration that fails after the listing opened, and a `LinkageError` such as
  `NoClassDefFoundError` from `loadClass` at line 190. Only `ClassNotFoundException` is caught
  (lines 121 and 176) and only `IOException` at line 138, so such an error escapes `scan`. A
  directory listing either opens fully or fails before yielding anything (`UnlistableDir`).
- ScanFindsExactlyAnnotatedClasses, SkippedResourceKeepsOthers: `loadClass` returning `None`
  stands for `ClassNotFoundException` alone. A load that fails with another throwable would
  escape `scan` instead of being skipped, and the model does not represent that outcome.
- A directory tree is finite (`FileNode`). A symbolic link that makes a directory its own
  descendant sends `traverseFile` into unbounded recursion and a `StackOverflowError`, which the
  model cannot represent.
- `ClassUtils` is not part of this model. Its `CLASS_EXTENSION` is taken to be `.class`, the
  literal `scanFile` uses.
- SLF4J debug logging has no effect on results and is not modelled.
- The Java `Stream` result is a finished sequence. The source also collects every class into a
  list before streaming it.
- Concurrency is not modelled: a scan is a single-threaded pure function.
- A null requested annotation is not modelled. The annotation is a string.
- Running the same scan twice gives the same result, because the model is a deterministic
  function. No separate lemma states this.
- `resolveRequiredPlaceholders` has its own placeholder grammar, which is not modelled. It is an
  abstract function that may fail.
- `EnvironmentConvertibleValuesMap` does its own conversion on the stored values, which is not
  modelled. The wrapper's values are the target's entries, unchanged.
- `AnnotationMetadataSupport.getDefaultValues` is `Support.defaultValues`.
- The base `AnnotationValue` class is not part of this model. Its `getAnnotations` lookups are
  the abstract `Support.baseGetAnnotations` and `Support.baseGetAnnotationsOfType`. Its member
  read is assumed to return the stored value, else the default, passed through the installed
  mapper. That assumption is `Lookup`, `Mapped` and `GetValue`.
- A value mapper installed by code outside this core could be any function. Here a mapper is
  either absent or the one an environment determines.
- The mapper, like the source's lambda, only rewrites a value that is itself a string. Strings
  inside an array value are left as they are.
