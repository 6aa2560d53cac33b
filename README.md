# syft scope detection and gemspec parsing, modelled in Dafny

This project models two pieces of syft, a tool that catalogs the software
packages found in a container image or a filesystem directory.

**Scope assembly** (`scope.dfy`, module `Scope`). A user names what to
catalog with one string. `detectScheme` classifies that string in a fixed
order: an explicit `dir:` prefix is trusted outright; otherwise the image
detector is asked; if it answers "unknown source", the home-expanded path is
stat-ed and taken as a directory only if it is one. `NewScope` then builds a
`Scope` (option, resolver, image source, directory source) for a directory
or a loaded image, or fails with an error and a cleanup action.
`Scope.Source` reports which source is populated, the image source first.
Everything the Go code calls outside its own file is a parameter of the
model:

- the filesystem `Stat` is a map from path to "is a directory" (a missing key
  is a failed stat);
- `image.DetectSource` is a function returning the source kind, the image
  spec and whether it failed;
- `homedir.Expand` is a partial function (`None` is its error);
- `stereoscope.GetImage` is a function returning an image pointer and
  whether it failed;
- `getImageResolver` is a partial function of image and option.

The cleanup action is a tag: a no-op, or one that calls
`stereoscope.Cleanup()`. Errors are one constructor per `fmt.Errorf` site.
The three errors that wrap one of this file's own errors keep it as their
cause. Errors that come from the filesystem, the detector, home expansion,
image loading or the resolver factory are not carried.

**Gemspec parsing** (`gemspec.dfy`, module `Bundler`).
`parseGemspecEntries` reads a gemspec line by line. It trims each line
(`strings.TrimSpace`, modelled over the characters `unicode.IsSpace`
accepts) and matches the trimmed line against `.*\.name *= *(.*) *`. It then
appends one Ruby bundler package whose name is the whole match. The regular
expression is modelled by:

- a predicate: `.name`, then blanks, then `=`, somewhere in the line;
- a specification of the leftmost match, and the longest among those. Go's
  regexp package reports the leftmost-first match instead. For this pattern,
  whose `.*` and `(.*)` are greedy, the two are the same span on a line
  without a newline.

The model proves that for a line without a newline this span is the whole
trimmed line. The loop is a method whose invariant ties the packages so far
to the lines read so far. A line that does not match would index a nil
result and panic, so every line matching is a precondition.

Two places where the code and its documentation disagree. The model follows
the code in both.

- The package test expects a version, metadata and the type `GemPkg`. The
  code sets only the name, `Ruby` and `BundlerPkg`.
- The commented-out reference parser (parse_gemspec.go:21-23) uses a line
  only when `if patt:` holds, so it skips lines the pattern does not match.
  This parser panics on them instead.

## Model

| member | source | states |
|---|---|---|
| Scope.DetectScheme | syft/scope/scope.go:141-176 | an unknown scheme always has location `""`; an error always comes with the unknown scheme; an image scheme only without the `dir:` prefix, located at the detector's image spec; a directory scheme located at the expansion of the prefixed remainder, or of the whole input when that path stats as a directory |
| Scope.DirPrefixIsTrusted | syft/scope/scope.go:142-149 | for `dir:`+p the answer depends on neither the filesystem nor the detector: directory at the expansion of p, or unknown with `""` and an error when expansion fails, whether or not the path exists |
| Scope.ImageTakesPrecedence | syft/scope/scope.go:153-158 | an unprefixed input the detector recognises without error is an image at its image spec, whatever the filesystem holds under that name |
| Scope.DirectorySchemeIff | syft/scope/scope.go:142-172 | both directions: the scheme is directory exactly when the prefix is present and expansion succeeds, or the detector answers unknown source and the expanded path stats as a directory |
| Scope.SilentUnknownIff | syft/scope/scope.go:158-172 | both directions: unknown with `""` and no error exactly when the detector answers unknown source, expansion succeeds and the path fails to stat or is not a directory |
| Scope.DetectionErrorIff | syft/scope/scope.go:144-162 | both directions: detection errs exactly when the expansion on its path fails or the detector fails |
| Scope.NewScopeFromDir | syft/scope/scope.go:94-104 | never fails; the resolver is a directory resolver on the path and the directory source is that path, for every path including `""`; the image source is empty and the option is zero; a non-empty path gives a well-formed scope whose Source is that directory |
| Scope.NewScopeFromImage | syft/scope/scope.go:106-125 | succeeds exactly when the image is non-nil and a resolver is found; a nil image is `NoImageGiven`; on failure the zero Scope; on success a well-formed scope with the caller's option, the factory's resolver and Source equal to that image |
| Scope.Source | syft/scope/scope.go:127-137 | the image source whenever it is set, else the directory source when set; nil exactly when both are empty |
| Scope.SourceOfValidScope | syft/scope/scope.go:127-137 | on a scope with exactly one source populated, Source is never nil and returns the populated one |
| Scope.NewScope | syft/scope/scope.go:49-92 | failure always returns the zero Scope; success is always a well-formed scope with a non-nil Source (never an empty Scope); a directory success stats as a directory and has a no-op cleanup; an image success carries the caller's option; the stereoscope cleanup is returned exactly when an image load was attempted |
| Scope.NewScopeSucceedsIff | syft/scope/scope.go:52-92 | both directions: success exactly when detection gave no error and either a directory scheme whose location stats as a directory, or an image scheme whose load succeeded with a non-nil image and a resolver |
| Scope.NewScopeFailures | syft/scope/scope.go:53-91 | detection errors are wrapped with a no-op cleanup; the unknown scheme is refused; a failed stat and a non-directory each fail with a no-op cleanup; a load error or nil image fails but still returns the stereoscope cleanup |
| Scope.NewScopeDirectorySuccess | syft/scope/scope.go:58-72 | on directory success the source path and the resolver path both equal the detected location; image source empty, option zero, cleanup no-op |
| Scope.NewScopeImageSuccess | syft/scope/scope.go:74-88 | on image success the image source holds the loaded image; directory source empty; option equals the argument; cleanup is stereoscope's |
| Scope.DirInputValidatedAtConstruction | syft/scope/scope.go:57-72 | for `dir:`+p detection always says directory, and NewScope succeeds exactly when the expanded path is a directory, with that path as the directory source |
| Bundler.TrimSpace | syft/cataloger/bundler/parse_gemspec.go:61 | the result has no white space at either end, is a contiguous slice of the line, and everything cut before and after it is white space |
| Bundler.TrimSpaceOfPadded | syft/cataloger/bundler/parse_gemspec.go:61 | trimming white space, a trimmed core and more white space gives back exactly the core, so the slice is unique |
| Bundler.TrimSpaceIdempotent | syft/cataloger/bundler/parse_gemspec.go:61 | trimming a trimmed line changes nothing |
| Bundler.FindNameAssign | syft/cataloger/bundler/parse_gemspec.go:52 | finds the leftmost `.name`, blanks, `=` at or after a position, or proves there is none |
| Bundler.FindNameMatch | syft/cataloger/bundler/parse_gemspec.go:52-63 | on a newline-free string: a match exists exactly when `.name *=` occurs, and the reported whole match is the whole string, the leftmost-longest span the pattern matches |
| Bundler.TrimmingKeepsNameAssign | syft/cataloger/bundler/parse_gemspec.go:61-63 | a line matches exactly when its trimmed form does |
| Bundler.ParseGemspecEntries | syft/cataloger/bundler/parse_gemspec.go:54-73 | one package per line in line order (none for no lines); each name is the trimmed line, which is the reported regex match; language Ruby and type BundlerPkg; version empty and metadata nil; the error is always nil |

## Left out

- Real I/O is not modelled. Opening the OS filesystem, the image detector, image loading and the resolver factory are parameters.
- The filesystem is one snapshot. Detection and NewScope's re-stat see the same filesystem, so a path changing between the two stats is not modelled.
- The filesystem model never holds the empty path. Stat of `""` fails on an operating system filesystem. This is what rules out a successful directory scope with an empty path.
- The rules of `homedir.Expand` are not modelled: the go-homedir package is not part of this model. It is a partial function parameter.
- The `Option` type is not part of this model. It is an `int` whose zero value is 0.
- The resolver implementations (`resolvers.DirectoryResolver`, the image resolvers) and `getImageResolver` are not part of this model. Resolvers are opaque tags.
- The text of error messages is not modelled. Errors are constructors per site.
- The causes of errors from outside scope.go are not modelled: the stat, detector, home-expansion, image-loading and resolver errors wrapped at scope.go:61, 65, 81, 115, 146, 155 and 161 are dropped. Only the three wrappers of this file's own errors keep a cause.
- `stereoscope.Cleanup` is not modelled beyond its presence: the cleanup is a tag, not a process-wide release.
- The scanner mechanics of `bufio.Scanner` are not modelled: buffering, the 64 KiB token limit, `\r` stripping and the unchecked `scanner.Err()`. The input is the sequence of lines, none holding a newline.
- Trimming works on characters, not UTF-8 bytes, so invalid UTF-8 is not modelled.
- General regular-expression semantics are not modelled. Only the name pattern is, and only its whole match; the `(.*)` capture group is never read by the code and is not modelled.
- The commented-out reference parser for version, licenses, authors and files is not executed code and is not modelled.
- The `common.ParserFn` integrity check names `parseGemfileLockEntries`, which is not part of this model.
- `filePath` is accepted and ignored, as in the code.
