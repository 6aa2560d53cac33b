/**
 * Input classification and scope assembly (syft/scope/scope.go).
 *
 * Everything the Go code reaches outside this file is a parameter: the
 * filesystem (`Stat`), the image-source detector, home-directory expansion,
 * image loading and the image resolver factory.
 */
module Scope {
  import opened Wrappers

  /** The classification detectScheme returns. */
  datatype Scheme = UnknownScheme | DirectoryScheme | ImageScheme

  /** The detector's source kind; `UnknownSource` is its "not an image I know" answer. */
  datatype ImageSourceKind = UnknownSource | KnownSource(code: nat)

  /** The detector's three results: source kind, image spec and whether an error came back. */
  datatype DetectorAnswer = DetectorAnswer(source: ImageSourceKind, imageSpec: string, failed: bool)

  /**
   * The filesystem as `Stat` sees it: a path that is a key stats successfully
   * and its value is `IsDir()`; any other path fails to stat. The empty path
   * never stats on an operating system filesystem, so it is never a key.
   */
  type FileSystem = m: map<string, bool> | "" !in m witness map[]

  /** `image.DetectSource`. */
  type Detector = string -> DetectorAnswer

  /** `homedir.Expand`: `None` is its error result. */
  type HomeExpander = string -> Option<string>

  /** An `*image.Image`: nil or a handle to a loaded image. */
  datatype ImageRef = NilImage | Image(id: nat)

  /** What `stereoscope.GetImage` returns: the image pointer and whether an error came back. */
  datatype ImageFetch = ImageFetch(img: ImageRef, failed: bool)

  /** `stereoscope.GetImage`. */
  type ImageLoader = string -> ImageFetch

  /** The cataloging perspective (`Option`); only its zero value matters here. */
  type ScopeOption = int

  const ZeroOption: ScopeOption := 0

  /** A Resolver interface value: nil, the directory resolver, or one made by getImageResolver. */
  datatype Resolver = NilResolver | DirectoryResolver(path: string) | ImageResolver(id: nat)

  /** `getImageResolver`: `None` is its error result. */
  type ResolverFactory = (ImageRef, ScopeOption) -> Option<Resolver>

  datatype ImageSource = ImageSource(img: ImageRef)

  datatype DirSource = DirSource(path: string)

  /** The source to catalog, the option and the resolver to use on it. */
  datatype Scope = Scope(option: ScopeOption, resolver: Resolver, imgSrc: ImageSource, dirSrc: DirSource)

  const EmptyImageSource := ImageSource(NilImage)

  const EmptyDirSource := DirSource("")

  /** Go's `Scope{}`. */
  const ZeroScope := Scope(ZeroOption, NilResolver, EmptyImageSource, EmptyDirSource)

  /** The cleanup action handed back: `func() {}` or one that calls `stereoscope.Cleanup()`. */
  datatype Cleanup = NoOpCleanup | StereoscopeCleanup

  /** One kind per error the Go code builds; wrapping errors keep their cause. */
  datatype ScopeError =
    | ExpandDirPathFailed
    | DetectionFailed
    | ExpandPotentialDirPathFailed
    | ParseInputFailed(cause: ScopeError)
    | StatDirFailed
    | NotADirectory
    | PopulateFromPathFailed(cause: ScopeError)
    | FetchImageFailed
    | PopulateWithImageFailed(cause: ScopeError)
    | NoImageGiven
    | ResolverFailed
    | UnprocessableInput

  /** detectScheme's results: scheme, location and error. */
  datatype Detection = Detection(scheme: Scheme, location: string, err: Option<ScopeError>)

  /** NewScope's results: scope, cleanup action and error. */
  datatype Construction = Construction(scope: Scope, cleanup: Cleanup, err: Option<ScopeError>)

  /** NewScopeFromDir's and NewScopeFromImage's results: scope and error. */
  datatype ScopeResult = ScopeResult(scope: Scope, err: Option<ScopeError>)

  /** What `Scope.Source()` returns as an `interface{}`. */
  datatype SourceValue = ImageSourceValue(imgSrc: ImageSource) | DirSourceValue(dirSrc: DirSource) | NilSource

  const DirPrefix := "dir:"

  predicate HasDirPrefix(s: string) {
    |DirPrefix| <= |s| && s[..|DirPrefix|] == DirPrefix
  }

  /**
   * A well-formed scope: exactly one source is populated, and a directory
   * scope resolves through a directory resolver rooted at its own path with
   * the option left at its zero value.
   */
  predicate ValidScope(s: Scope) {
    (s.imgSrc != EmptyImageSource <==> s.dirSrc == EmptyDirSource) &&
    (s.dirSrc != EmptyDirSource ==>
       s.resolver == DirectoryResolver(s.dirSrc.path) && s.option == ZeroOption)
  }

  /** detectScheme: classify the user's input. */
  function DetectScheme(fs: FileSystem, detector: Detector, expand: HomeExpander, userInput: string): (r: Detection)
    ensures r.scheme == UnknownScheme ==> r.location == ""
    ensures r.err.Some? ==> r.scheme == UnknownScheme
    ensures r.scheme == ImageScheme ==>
              !HasDirPrefix(userInput) && r.location == detector(userInput).imageSpec
    ensures r.scheme == DirectoryScheme ==>
              if HasDirPrefix(userInput) then expand(userInput[|DirPrefix|..]) == Some(r.location)
              else expand(userInput) == Some(r.location) && r.location in fs && fs[r.location]
  {
    if HasDirPrefix(userInput) then
      // the explicit prefix is trusted without probing anything
      match expand(userInput[|DirPrefix|..])
      case None => Detection(UnknownScheme, "", Some(ExpandDirPathFailed))
      case Some(dirLocation) => Detection(DirectoryScheme, dirLocation, None)
    else
      var answer := detector(userInput);
      if answer.failed then
        Detection(UnknownScheme, "", Some(DetectionFailed))
      else if answer.source == UnknownSource then
        match expand(userInput)
        case None => Detection(UnknownScheme, "", Some(ExpandPotentialDirPathFailed))
        case Some(dirLocation) =>
          if dirLocation !in fs then Detection(UnknownScheme, "", None)
          else if fs[dirLocation] then Detection(DirectoryScheme, dirLocation, None)
          else Detection(UnknownScheme, "", None)
      else
        Detection(ImageScheme, answer.imageSpec, None)
  }

  /** NewScopeFromDir: a scope over a directory tree. */
  function NewScopeFromDir(path: string): (r: ScopeResult)
    ensures r.err.None?
    ensures r.scope.imgSrc == EmptyImageSource && r.scope.option == ZeroOption
    ensures r.scope.resolver == DirectoryResolver(path) && r.scope.dirSrc == DirSource(path)
    ensures path != "" ==> ValidScope(r.scope) && Source(r.scope) == DirSourceValue(DirSource(path))
  {
    ScopeResult(Scope(ZeroOption, DirectoryResolver(path), EmptyImageSource, DirSource(path)), None)
  }

  /** NewScopeFromImage: a scope over a loaded image under the given option. */
  function NewScopeFromImage(img: ImageRef, option: ScopeOption, resolverFor: ResolverFactory): (r: ScopeResult)
    ensures r.err.None? <==> img != NilImage && resolverFor(img, option).Some?
    ensures img == NilImage ==> r.err == Some(NoImageGiven)
    ensures r.err.Some? ==> r.scope == ZeroScope
    ensures r.err.None? ==>
              ValidScope(r.scope) && Source(r.scope) == ImageSourceValue(ImageSource(img)) &&
              r.scope.option == option && r.scope.resolver == resolverFor(img, option).value
  {
    if img == NilImage then
      ScopeResult(ZeroScope, Some(NoImageGiven))
    else
      match resolverFor(img, option)
      case None => ScopeResult(ZeroScope, Some(ResolverFailed))
      case Some(resolver) => ScopeResult(Scope(option, resolver, ImageSource(img), EmptyDirSource), None)
  }

  /** Scope.Source: the image source wins over the directory source; nil when neither is set. */
  function Source(s: Scope): (r: SourceValue)
    ensures s.imgSrc != EmptyImageSource ==> r == ImageSourceValue(s.imgSrc)
    ensures s.imgSrc == EmptyImageSource && s.dirSrc != EmptyDirSource ==> r == DirSourceValue(s.dirSrc)
    ensures r == NilSource <==> s.imgSrc == EmptyImageSource && s.dirSrc == EmptyDirSource
  {
    if s.imgSrc != EmptyImageSource then ImageSourceValue(s.imgSrc)
    else if s.dirSrc != EmptyDirSource then DirSourceValue(s.dirSrc)
    else NilSource
  }

  /** NewScope: classify the input, then build the matching scope. */
  function NewScope(fs: FileSystem, detector: Detector, expand: HomeExpander, loader: ImageLoader,
                    resolverFor: ResolverFactory, userInput: string, o: ScopeOption): (r: Construction)
    ensures r.err.Some? ==> r.scope == ZeroScope
    ensures r.err.None? ==> ValidScope(r.scope) && Source(r.scope) != NilSource
    ensures r.err.None? && r.scope.dirSrc != EmptyDirSource ==>
              r.cleanup == NoOpCleanup && r.scope.dirSrc.path in fs && fs[r.scope.dirSrc.path]
    ensures r.err.None? && r.scope.imgSrc != EmptyImageSource ==> r.scope.option == o
    ensures r.cleanup == StereoscopeCleanup <==>
              DetectScheme(fs, detector, expand, userInput).err.None? &&
              DetectScheme(fs, detector, expand, userInput).scheme == ImageScheme
  {
    var d := DetectScheme(fs, detector, expand, userInput);
    if d.err.Some? then
      Construction(ZeroScope, NoOpCleanup, Some(ParseInputFailed(d.err.value)))
    else
      match d.scheme
      case DirectoryScheme =>
        if d.location !in fs then Construction(ZeroScope, NoOpCleanup, Some(StatDirFailed))
        else if !fs[d.location] then Construction(ZeroScope, NoOpCleanup, Some(NotADirectory))
        else
          var built := NewScopeFromDir(d.location);
          (match built.err
           case Some(e) => Construction(ZeroScope, NoOpCleanup, Some(PopulateFromPathFailed(e)))
           case None => Construction(built.scope, NoOpCleanup, None))
      case ImageScheme =>
        var fetched := loader(d.location);
        if fetched.failed || fetched.img == NilImage then
          Construction(ZeroScope, StereoscopeCleanup, Some(FetchImageFailed))
        else
          var built := NewScopeFromImage(fetched.img, o, resolverFor);
          (match built.err
           case Some(e) => Construction(ZeroScope, StereoscopeCleanup, Some(PopulateWithImageFailed(e)))
           case None => Construction(built.scope, StereoscopeCleanup, None))
      case UnknownScheme =>
        Construction(ZeroScope, NoOpCleanup, Some(UnprocessableInput))
  }

  // ---------------------------------------------------------------------
  // Scheme detection

  /**
   * An explicit `dir:` prefix is authoritative: neither the filesystem nor
   * the image detector influences the answer, and the answer is the
   * home-expanded remainder whether or not that path exists.
   */
  lemma DirPrefixIsTrusted(fs1: FileSystem, fs2: FileSystem, detector1: Detector, detector2: Detector,
                           expand: HomeExpander, p: string)
    ensures DetectScheme(fs1, detector1, expand, DirPrefix + p) == DetectScheme(fs2, detector2, expand, DirPrefix + p)
    ensures DetectScheme(fs1, detector1, expand, DirPrefix + p) ==
              match expand(p)
              case Some(q) => Detection(DirectoryScheme, q, None)
              case None => Detection(UnknownScheme, "", Some(ExpandDirPathFailed))
  {
  }

  /**
   * An input the detector recognises as an image is an image, whatever the
   * filesystem holds under that name and whatever home expansion would give.
   */
  lemma ImageTakesPrecedence(fs: FileSystem, detector: Detector, expand: HomeExpander, userInput: string)
    requires !HasDirPrefix(userInput)
    requires !detector(userInput).failed && detector(userInput).source != UnknownSource
    ensures DetectScheme(fs, detector, expand, userInput) == Detection(ImageScheme, detector(userInput).imageSpec, None)
  {
  }

  /** The two ways an input is classified as a directory. */
  lemma DirectorySchemeIff(fs: FileSystem, detector: Detector, expand: HomeExpander, userInput: string)
    ensures DetectScheme(fs, detector, expand, userInput).scheme == DirectoryScheme <==>
              if HasDirPrefix(userInput) then expand(userInput[|DirPrefix|..]).Some?
              else
                !detector(userInput).failed && detector(userInput).source == UnknownSource &&
                expand(userInput).Some? && expand(userInput).value in fs && fs[expand(userInput).value]
  {
  }

  /**
   * The silent "unknown" answer (no error) happens exactly when an input the
   * detector does not know expands to a path that fails to stat or is not a
   * directory.
   */
  lemma SilentUnknownIff(fs: FileSystem, detector: Detector, expand: HomeExpander, userInput: string)
    ensures DetectScheme(fs, detector, expand, userInput) == Detection(UnknownScheme, "", None) <==>
              !HasDirPrefix(userInput) && !detector(userInput).failed &&
              detector(userInput).source == UnknownSource && expand(userInput).Some? &&
              !(expand(userInput).value in fs && fs[expand(userInput).value])
  {
  }

  /** Detection reports an error exactly when expansion or the detector fails on the path it takes. */
  lemma DetectionErrorIff(fs: FileSystem, detector: Detector, expand: HomeExpander, userInput: string)
    ensures DetectScheme(fs, detector, expand, userInput).err.Some? <==>
              if HasDirPrefix(userInput) then expand(userInput[|DirPrefix|..]).None?
              else detector(userInput).failed ||
                   (detector(userInput).source == UnknownSource && expand(userInput).None?)
  {
  }

  // ---------------------------------------------------------------------
  // Scope construction

  /** NewScope succeeds exactly when the detected source can actually be opened. */
  lemma NewScopeSucceedsIff(fs: FileSystem, detector: Detector, expand: HomeExpander, loader: ImageLoader,
                            resolverFor: ResolverFactory, userInput: string, o: ScopeOption)
    ensures var d := DetectScheme(fs, detector, expand, userInput);
            NewScope(fs, detector, expand, loader, resolverFor, userInput, o).err.None? <==>
              d.err.None? &&
              ((d.scheme == DirectoryScheme && d.location in fs && fs[d.location]) ||
               (d.scheme == ImageScheme && !loader(d.location).failed && loader(d.location).img != NilImage &&
                resolverFor(loader(d.location).img, o).Some?))
  {
  }

  /**
   * The failure paths: a detection error is wrapped and comes with a no-op
   * cleanup, an unknown scheme is refused, and an image that cannot be
   * fetched still hands back the stereoscope cleanup.
   */
  lemma NewScopeFailures(fs: FileSystem, detector: Detector, expand: HomeExpander, loader: ImageLoader,
                         resolverFor: ResolverFactory, userInput: string, o: ScopeOption)
    ensures var d := DetectScheme(fs, detector, expand, userInput);
            var r := NewScope(fs, detector, expand, loader, resolverFor, userInput, o);
            (d.err.Some? ==> r == Construction(ZeroScope, NoOpCleanup, Some(ParseInputFailed(d.err.value)))) &&
            (d.err.None? && d.scheme == UnknownScheme ==>
               r == Construction(ZeroScope, NoOpCleanup, Some(UnprocessableInput))) &&
            (d.err.None? && d.scheme == DirectoryScheme && d.location !in fs ==>
               r == Construction(ZeroScope, NoOpCleanup, Some(StatDirFailed))) &&
            (d.err.None? && d.scheme == DirectoryScheme && d.location in fs && !fs[d.location] ==>
               r == Construction(ZeroScope, NoOpCleanup, Some(NotADirectory))) &&
            (d.err.None? && d.scheme == ImageScheme && (loader(d.location).failed || loader(d.location).img == NilImage) ==>
               r == Construction(ZeroScope, StereoscopeCleanup, Some(FetchImageFailed)))
  {
  }

  /** A directory scope is rooted at the detected location, through its resolver and its source alike. */
  lemma NewScopeDirectorySuccess(fs: FileSystem, detector: Detector, expand: HomeExpander, loader: ImageLoader,
                                 resolverFor: ResolverFactory, userInput: string, o: ScopeOption)
    requires NewScope(fs, detector, expand, loader, resolverFor, userInput, o).err.None?
    requires DetectScheme(fs, detector, expand, userInput).scheme == DirectoryScheme
    ensures var d := DetectScheme(fs, detector, expand, userInput);
            var r := NewScope(fs, detector, expand, loader, resolverFor, userInput, o);
            r.scope.dirSrc.path == d.location && r.scope.resolver == DirectoryResolver(d.location) &&
            r.scope.imgSrc == EmptyImageSource && r.scope.option == ZeroOption && r.cleanup == NoOpCleanup &&
            Source(r.scope) == DirSourceValue(DirSource(d.location))
  {
  }

  /** An image scope holds the loaded image and the caller's option, and its cleanup releases stereoscope. */
  lemma NewScopeImageSuccess(fs: FileSystem, detector: Detector, expand: HomeExpander, loader: ImageLoader,
                             resolverFor: ResolverFactory, userInput: string, o: ScopeOption)
    requires NewScope(fs, detector, expand, loader, resolverFor, userInput, o).err.None?
    requires DetectScheme(fs, detector, expand, userInput).scheme == ImageScheme
    ensures var d := DetectScheme(fs, detector, expand, userInput);
            var r := NewScope(fs, detector, expand, loader, resolverFor, userInput, o);
            r.scope.imgSrc == ImageSource(loader(d.location).img) && r.scope.dirSrc == EmptyDirSource &&
            r.scope.option == o && r.cleanup == StereoscopeCleanup &&
            r.scope.resolver == resolverFor(loader(d.location).img, o).value &&
            Source(r.scope) == ImageSourceValue(ImageSource(loader(d.location).img))
  {
  }

  /**
   * End to end for `dir:` input: detection never looks at the path, so it is
   * construction that succeeds exactly when the expanded path is a directory.
   */
  lemma DirInputValidatedAtConstruction(fs: FileSystem, detector: Detector, expand: HomeExpander, loader: ImageLoader,
                                        resolverFor: ResolverFactory, p: string, o: ScopeOption)
    requires expand(p).Some?
    ensures DetectScheme(fs, detector, expand, DirPrefix + p) == Detection(DirectoryScheme, expand(p).value, None)
    ensures var r := NewScope(fs, detector, expand, loader, resolverFor, DirPrefix + p, o);
            (r.err.None? <==> expand(p).value in fs && fs[expand(p).value]) &&
            (r.err.None? ==> r.scope.dirSrc == DirSource(expand(p).value))
  {
  }

  /** On a well-formed scope, Source() is never nil and names the populated source. */
  lemma SourceOfValidScope(s: Scope)
    requires ValidScope(s)
    ensures Source(s) != NilSource
    ensures Source(s) == if s.imgSrc != EmptyImageSource then ImageSourceValue(s.imgSrc) else DirSourceValue(s.dirSrc)
  {
  }
}
