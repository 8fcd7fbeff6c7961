# CSS resource URLs and optimization flags of the Angular browser build

This project models two parts of the Angular build tooling for browser
applications.

**The `postcss-cli-resources` plugin.** For every stylesheet the plugin
picks the declarations whose value mentions `url`. In each `url(...)` token
of those values it resolves the URL:

- absolute, `data:`, `chrome:` and `#` URLs are kept;
- a `^` prefix bypasses processing;
- root-relative URLs are composed with the deploy URL and the base href;
- relative files are resolved through the loader, read, emitted under the
  name the `filename` template gives and turned into their public URL.

A per-stylesheet cache remembers the results. A token whose URL changed to
a non-empty URL is rewritten as `url('...')`, or as `url("...")` when the
URL itself holds a single quote. A URL that fails is reported as an error
and its token is left as it was.

**`normalizeOptimization`.** It turns the `optimization` option, which is a
boolean or an object with `scripts` and `styles`, into two booleans.

Modules:

- `UrlText` (`url_text.dfy`) holds the string tests and rewrites that
  `process` uses: the scheme pattern, slash handling and `wrapUrl`.
- `ResourcePolicy` (`resource_policy.dfy`) states `process` as a pure
  function of the options, the host's collaborators, the URL and the cache.
  It also holds `resolve`, the composition of root-relative URLs, and the
  fold `ProcessAll` over a sequence of URLs sharing one cache.
- `Rewriting` (`rewriting.dfy`) holds the reference meaning of the
  rewrite of one declaration value. That is the value rebuilt from its
  matches and their outcomes, plus the diagnostics of the failures.
- `CliResources` (`cli_resources.dfy`) is the stateful plugin:
  - the classes `ResourceCache` (the `Map`) and `Loader` (dependencies,
    emitted files and errors as logs);
  - `ResourcesPlugin`, with `Process`, the per-declaration rewrite loop
    and the pass over a stylesheet's declarations (an array of values
    rewritten in place).

  Each method is proved against the functions above.
- `OptimizationOptions` (`normalize_optimization.dfy`) models
  `normalizeOptimization` on a small model of JavaScript values.
- `Wrappers` (`wrappers.dfy`) provides `Option` and `Result`.
- `Sequences` (`sequences.dfy`) holds small facts about slicing and
  concatenating sequences that the proofs share.

Two effects of the code are easy to miss:

- **Cache key after a `~`.** A URL that starts with `~` is looked up with
  the `~` but stored without it (postcss-cli-resources.js lines 45, 50, 66
  and 96). The model does the same (`MissStoresStrippedKey`). As a result
  a `~` URL never finds the entry it stored: each occurrence is processed
  again, and a relative one is resolved, read and emitted again
  (`TildeRepeatRecomputes`). The one exception is a `~x` that follows a
  `~~x`, which stored its entry under `~x`.
- **Empty cached value.** A cached empty string does not count as a hit,
  because the code tests the cached value for truthiness.

## Model

| member | source | states |
|---|---|---|
| UrlText.SchemePrefixMatchesPattern | src/angular-cli-files/plugins/postcss-cli-resources.js:37 | deciding `^\w+:\/\/` on the longest run of word characters agrees with the pattern's literal meaning: some non-empty word run is followed by `://` |
| UrlText.StripTrailingSlash | src/angular-cli-files/plugins/postcss-cli-resources.js:56 | at most one slash is removed, and one is removed exactly when the string ends in `/` |
| UrlText.ForwardSlashes | src/angular-cli-files/plugins/postcss-cli-resources.js:69 | each backslash becomes `/`, every other character stays in place, and no backslash remains |
| UrlText.DedupeSlashes | src/angular-cli-files/plugins/postcss-cli-resources.js:34 | the result is no longer than the input, keeps its first character, and has no two adjacent slashes |
| UrlText.DedupeFixpoint | src/angular-cli-files/plugins/postcss-cli-resources.js:34 | a string without a double slash is unchanged |
| UrlText.DedupeUnchangedIff | src/angular-cli-files/plugins/postcss-cli-resources.js:34 | de-duplication leaves a string unchanged if and only if it has no double slash |
| UrlText.DedupeIdempotent | src/angular-cli-files/plugins/postcss-cli-resources.js:34 | applying it twice equals applying it once |
| UrlText.DedupeKeepsNonSlash | src/angular-cli-files/plugins/postcss-cli-resources.js:34 | only slashes are removed: the other characters keep their order |
| UrlText.DedupeRun | src/angular-cli-files/plugins/postcss-cli-resources.js:34 | a run of one or more slashes between a text not ending in `/` and a text not starting with `/` becomes exactly one slash, the two sides being de-duplicated on their own |
| UrlText.DedupeLeadingRun | src/angular-cli-files/plugins/postcss-cli-resources.js:34 | a leading run of one or more slashes becomes exactly one slash |
| UrlText.DedupePrefix | src/angular-cli-files/plugins/postcss-cli-resources.js:34 | a prefix without a double slash that does not end in `/` passes through unchanged |
| UrlText.DedupeSegment | src/angular-cli-files/plugins/postcss-cli-resources.js:34 | `/segment` before text starting with `/` keeps the segment behind exactly one slash (nothing for an empty segment) |
| UrlText.WrapUrl | src/angular-cli-files/plugins/postcss-cli-resources.js:13-23 | the token is seven characters longer than the URL |
| UrlText.WrapUrlShape | src/angular-cli-files/plugins/postcss-cli-resources.js:13-23 | the token is `url(` + quote + URL + the same quote + `)`; the quote is `"` exactly when the URL holds `'`, and it does not occur in the URL unless the URL holds both kinds |
| UrlText.UnwrapWrap | src/angular-cli-files/plugins/postcss-cli-resources.js:13-23 | reading the URL back out of the token gives the original URL |
| ResourcePolicy.Resolve | src/angular-cli-files/plugins/postcss-cli-resources.js:24-31 | `./file` is tried first; the bare `file` is tried only if that fails, and its answer is then the result; the result fails only if both attempts fail |
| ResourcePolicy.RootRelativeUrl | src/angular-cli-files/plugins/postcss-cli-resources.js:52-65 | with a scheme-qualified or rooted deploy URL, the URL is appended to the deploy URL minus a trailing slash; otherwise the result starts with `/`, or with a scheme base href stripped of its slash followed by `/`, with no double slash after it |
| ResourcePolicy.RootRelativeKeepsText | src/angular-cli-files/plugins/postcss-cli-resources.js:58-65 | in the two de-duplicating branches the non-slash characters of the result are those of base href, deploy URL and URL, in that order |
| ResourcePolicy.SchemeBaseKeepsText | src/angular-cli-files/plugins/postcss-cli-resources.js:58-61 | the scheme base href branch keeps the base href (minus its trailing slash), the deploy URL and the URL in order, losing only slashes |
| ResourcePolicy.PlainBaseKeepsText | src/angular-cli-files/plugins/postcss-cli-resources.js:62-65 | the joined branch keeps base href, deploy URL and URL in order, losing only slashes |
| ResourcePolicy.RootRelativeJoinsSegments | src/angular-cli-files/plugins/postcss-cli-resources.js:52-65 | with a deploy URL and base href that are clean segments (no slash at either end, no double slash) and a URL without double slash, the result is exactly `/base/deploy` + URL, an empty segment contributing nothing; with a scheme base href it is the base href minus its trailing slash + `/deploy` + URL |
| ResourcePolicy.SchemeJoin | src/angular-cli-files/plugins/postcss-cli-resources.js:58-61 | the de-duplicated tail `/deploy/` + URL of the scheme branch is `/deploy` + URL (just the URL for an empty deploy URL) |
| ResourcePolicy.PlainJoin | src/angular-cli-files/plugins/postcss-cli-resources.js:62-65 | the de-duplicated `/base/deploy/` + URL is `/base/deploy` + URL, dropping empty segments |
| ResourcePolicy.ExampleRelativeBaseHref | src/angular-cli-files/plugins/postcss-cli-resources.js:62-65 | base href `app` and no deploy URL turn `/a.png` into `/app/a.png` |
| ResourcePolicy.RootedBaseHrefJoins | src/angular-cli-files/plugins/postcss-cli-resources.js:62-65 | for the usual base href form `/x/`, with `x`, the deploy URL and the URL clean as above, the result is exactly `/x/deploy` + URL, as for the bare segment `x` |
| ResourcePolicy.ExampleRootedBaseHref | src/angular-cli-files/plugins/postcss-cli-resources.js:62-65 | base href `/app/` and no deploy URL turn `/a.png` into `/app/a.png` |
| ResourcePolicy.SlashedDeployUrlJoins | src/angular-cli-files/plugins/postcss-cli-resources.js:52-65 | for the usual relative deploy URL form `d/` with `d` a non-empty clean segment, both de-duplicating branches give exactly what the bare segment `d` gives: `/base/d` + URL for a clean base href, the scheme base href minus its slash + `/d` + URL otherwise |
| ResourcePolicy.ExampleSlashedDeployUrl | src/angular-cli-files/plugins/postcss-cli-resources.js:62-65 | deploy URL `static/` and no base href turn `/a.png` into `/static/a.png` |
| ResourcePolicy.DefaultOptionsKeepRootRelative | src/angular-cli-files/plugins/postcss-cli-resources.js:62-65 | with the default empty deploy URL and base href, a root-relative URL without double slashes comes out unchanged |
| ResourcePolicy.ExampleDefaultOptions | src/angular-cli-files/plugins/postcss-cli-resources.js:62-65 | `/a/b.png` with default options stays `/a/b.png` |
| ResourcePolicy.ExampleAbsoluteDeployUrl | src/angular-cli-files/plugins/postcss-cli-resources.js:54-57 | deploy URL `http://cdn.example/` turns `/a/b.png` into `http://cdn.example/a/b.png` |
| ResourcePolicy.AbsoluteBaseHrefKeepsPath | src/angular-cli-files/plugins/postcss-cli-resources.js:58-61 | with a scheme base href and no deploy URL, a clean root-relative URL is appended to the base href minus its trailing slash |
| ResourcePolicy.ExampleAbsoluteBaseHref | src/angular-cli-files/plugins/postcss-cli-resources.js:58-61 | base href `http://site.example/app/` turns `/a/b.png` into `http://site.example/app/a/b.png` |
| ResourcePolicy.StripTilde | src/angular-cli-files/plugins/postcss-cli-resources.js:49-51 | exactly one leading `~` is removed, and only when there is one |
| ResourcePolicy.FetchRelative | src/angular-cli-files/plugins/postcss-cli-resources.js:69-99 | a failure registers no dependency and emits nothing; a success registers exactly one dependency and emits exactly one file |
| ResourcePolicy.DeployUrlOnlyJoins | src/angular-cli-files/plugins/postcss-cli-resources.js:79-95 | the deploy URL changes neither success nor failure, the dependency, the emission nor an error; a successful URL is the deploy-less one joined onto the deploy URL when that is set and the loader is not the extracted one, and an extracted loader gives what an empty deploy URL gives |
| ResourcePolicy.ProcessStep | src/angular-cli-files/plugins/postcss-cli-resources.js:35-100 | the cache only gains keys; it changes only on success, by storing the result under the URL without `~`; a failure changes nothing and causes no dependency or emission |
| ResourcePolicy.PassThroughUnchanged | src/angular-cli-files/plugins/postcss-cli-resources.js:36-39 | an absolute or opaque URL comes back unchanged with the cache and the host untouched |
| ResourcePolicy.CaretBypass | src/angular-cli-files/plugins/postcss-cli-resources.js:40-44 | a `^` URL comes back without its caret with the cache and the host untouched |
| ResourcePolicy.CacheHit | src/angular-cli-files/plugins/postcss-cli-resources.js:45-48 | a non-empty entry under the raw URL is returned, with no I/O and no cache change |
| ResourcePolicy.MissStoresStrippedKey | src/angular-cli-files/plugins/postcss-cli-resources.js:49-68 | on a miss the URL without `~` is fetched; a success is stored under that stripped key, and a failure leaves the cache alone |
| ResourcePolicy.RootRelativeComposed | src/angular-cli-files/plugins/postcss-cli-resources.js:52-67 | a root-relative URL is composed, cached under the stripped key and returned, never reaching the host |
| ResourcePolicy.FailureLeavesCache | src/angular-cli-files/plugins/postcss-cli-resources.js:69-99 | a failing URL is not cached and causes no dependency or emission |
| ResourcePolicy.RepeatHitsCache | src/angular-cli-files/plugins/postcss-cli-resources.js:45-48 | a URL without `~` that resolved to a non-empty URL is answered from the cache the second time, with the same result and no I/O |
| ResourcePolicy.TildeRepeatRecomputes | src/angular-cli-files/plugins/postcss-cli-resources.js:45-51 | a `~` URL not in the cache misses again on its second occurrence and repeats its result, dependency and emission |
| ResourcePolicy.ProcessKeepsCacheValid | src/angular-cli-files/plugins/postcss-cli-resources.js:35-100 | if every cache entry is what resolving its key gives, that stays true after one `process` call |
| ResourcePolicy.CacheTransparent | src/angular-cli-files/plugins/postcss-cli-resources.js:45-48 | with a faithful cache, a URL without `~` gets the same result as with an empty cache |
| ResourcePolicy.ProcessAll | src/angular-cli-files/plugins/postcss-cli-resources.js:111-124 | one outcome per URL processed in order over one shared cache |
| ResourcePolicy.ProcessAllAppend | src/angular-cli-files/plugins/postcss-cli-resources.js:111-124 | processing two lists in a row over the shared cache equals processing their concatenation |
| ResourcePolicy.ProcessAllKeepsKeys | src/angular-cli-files/plugins/postcss-cli-resources.js:111 | the stylesheet cache never loses a key during a pass |
| ResourcePolicy.ProcessAllKeepsCacheValid | src/angular-cli-files/plugins/postcss-cli-resources.js:111 | a cache that starts faithful (the fresh empty one does) stays faithful through a pass |
| Rewriting.Replacement | src/angular-cli-files/plugins/postcss-cli-resources.js:133-139 | a match is replaced exactly when its URL succeeded with a non-empty result different from the original, and then by the wrapped result |
| Rewriting.RebuildKeepsHead | src/angular-cli-files/plugins/postcss-cli-resources.js:130-146 | the text before the first match is kept at the front of the rebuilt value |
| Rewriting.RebuildKeepsTail | src/angular-cli-files/plugins/postcss-cli-resources.js:142-146 | the text after the last match is kept at the end of the rebuilt value |
| Rewriting.RebuildPrefix | src/angular-cli-files/plugins/postcss-cli-resources.js:142-144 | any text beyond the last match can be cut off before rebuilding and appended afterwards, with the same result |
| Rewriting.RebuildUntouched | src/angular-cli-files/plugins/postcss-cli-resources.js:133-134 | when no match earns a replacement, the rebuilt value is the original value |
| Rewriting.ExampleFirstKept | src/angular-cli-files/plugins/postcss-cli-resources.js:126-134 | in `url(a) url(b)`, the failed first URL keeps its text `url(a) ` |
| Rewriting.ExampleFailedThenResolved | src/angular-cli-files/plugins/postcss-cli-resources.js:120-147 | `url(a) url(b)`, with `a` failing and `b` resolving to `c.png`, becomes `url(a) url('c.png')` |
| Rewriting.ExampleOneDiagnostic | src/angular-cli-files/plugins/postcss-cli-resources.js:126-128 | in that case exactly one error is reported, naming `a` and its message |
| Rewriting.Diagnostics | src/angular-cli-files/plugins/postcss-cli-resources.js:126-128 | at most one error per processed URL |
| Rewriting.DiagnosticsSound | src/angular-cli-files/plugins/postcss-cli-resources.js:126-128 | every reported error names a URL that failed, with the message it failed with |
| Rewriting.DiagnosticPerFailure | src/angular-cli-files/plugins/postcss-cli-resources.js:126-128 | the number of errors equals the number of failed URLs |
| Rewriting.DiagnosticsAppend | src/angular-cli-files/plugins/postcss-cli-resources.js:112-128 | the errors of consecutive runs are the errors of the combined run |
| Rewriting.RewriteStep | src/angular-cli-files/plugins/postcss-cli-resources.js:126-140 | after one loop pass, joined segments plus the unconsumed tail equal the value rebuilt from the matches so far |
| CliResources.ResourceCache.Get | src/angular-cli-files/plugins/postcss-cli-resources.js:45 | returns the entry for the key, or nothing when the key is absent |
| CliResources.ResourceCache.Set | src/angular-cli-files/plugins/postcss-cli-resources.js:66 | the entry for the key becomes the value; other entries are kept |
| CliResources.ResourceCache.constructor | src/angular-cli-files/plugins/postcss-cli-resources.js:111 | a new cache is empty |
| CliResources.Loader.AddDependency | src/angular-cli-files/plugins/postcss-cli-resources.js:87 | appends the path to the dependencies, nothing else changes |
| CliResources.Loader.EmitFile | src/angular-cli-files/plugins/postcss-cli-resources.js:88 | appends the emission, nothing else changes |
| CliResources.Loader.EmitError | src/angular-cli-files/plugins/postcss-cli-resources.js:127 | appends the error, nothing else changes |
| CliResources.ResourcesPlugin.constructor | src/angular-cli-files/plugins/postcss-cli-resources.js:33 | an absent deploy URL or base href defaults to the empty string |
| CliResources.Selection | src/angular-cli-files/plugins/postcss-cli-resources.js:103-107 | the selection has no more entries than there are declarations, and each is the index of one |
| CliResources.SelectionExact | src/angular-cli-files/plugins/postcss-cli-resources.js:103-107 | the selection holds exactly the declarations whose value is non-empty and contains `url`, in increasing order |
| CliResources.SelectUrlDeclarations | src/angular-cli-files/plugins/postcss-cli-resources.js:102-107 | the walk collects exactly the selection of the declarations |
| CliResources.ResourcesPlugin.Process | src/angular-cli-files/plugins/postcss-cli-resources.js:35-100 | result, new cache, added dependencies and emissions are those of the `process` policy; no error is reported |
| CliResources.ResourcesPlugin.RewriteMatch | src/angular-cli-files/plugins/postcss-cli-resources.js:120-140 | one match: processed per the policy; a failure reports one error and leaves the segments alone; a success appends the gap and the match's piece and moves past the match |
| CliResources.ResourcesPlugin.RewriteMatches | src/angular-cli-files/plugins/postcss-cli-resources.js:116-141 | after the loop, the outcomes, cache and logs are those of processing the matches in order, and joined segments plus tail equal the rebuilt value |
| CliResources.ResourcesPlugin.RewriteDeclaration | src/angular-cli-files/plugins/postcss-cli-resources.js:112-147 | outcomes, cache and loader logs follow the in-order policy; one error per failure; the value becomes the rebuilt value and is written exactly when some match was replaced; other declarations are untouched |
| CliResources.ResourcesPlugin.RewriteAll | src/angular-cli-files/plugins/postcss-cli-resources.js:111-148 | every selected declaration is rewritten in order with the one shared cache; unselected ones are untouched |
| CliResources.ResourcesPlugin.Run | src/angular-cli-files/plugins/postcss-cli-resources.js:101-148 | the selected declarations are the `url` ones; no cache is created when there are none; otherwise one fresh cache serves all URLs in stylesheet order, each selected value becomes its rebuilt value, and the rest are unchanged; dependencies, emissions and errors follow |
| OptimizationOptions.NormalizeOptimization | src/utils/normalize-optimization.js:10-17 | a boolean sets both flags to itself; an object gives each flag the truthiness of its own property, and false when the property is absent; an array gives false; any other value gives its truthiness to both |
| OptimizationOptions.NormalizeAsObject | src/utils/normalize-optimization.js:10-17 | normalizing the object form of a normalized result gives it back |
| OptimizationOptions.BoolIsBothSwitches | src/utils/normalize-optimization.js:11-12 | `true`/`false` means the same as an object setting both switches to that value |
| OptimizationOptions.SwitchesIndependent | src/utils/normalize-optimization.js:11-12 | `scripts` depends only on the `scripts` property and `styles` only on `styles` |
| OptimizationOptions.UpdateOneSwitch | src/utils/normalize-optimization.js:11-12 | changing `scripts` leaves `styles` unchanged and vice versa; each changed property sets its own flag to the new value's truthiness |
| OptimizationOptions.FalsyTurnsOff | src/utils/normalize-optimization.js:11-12 | a falsy non-object value and the empty object turn both flags off |

## Left out

- The `url(...)` regular expression is not modelled (postcss-cli-resources.js:114, 120-121). Each declaration comes with its matches as spans: start, length and the captured URL. The spans are required to lie in order within the value and not to overlap, which the global regex guarantees. The choice `match[1] || match[2] || match[3]` is folded into the captured URL.
- `Promise.all` runs the declarations concurrently (line 112), and the awaits inside `process` let their calls interleave. The model runs declarations and URLs one after another. It does not capture the race in which two first-time lookups of the same URL both do the I/O.
- The host calls are deterministic functions of a `Collaborators` value:
  - `loader.resolve` and `loader.fs.readFile`;
  - `interpolateName`;
  - Node's `url.parse`, `url.format` and `url.resolve`;
  - the loader's `ident === 'extracted'` test, reduced to a boolean.
- The callback and promise plumbing is not modelled.
- `url.parse` can give a `null` pathname. The model represents absent parts as empty strings, so a `null` pathname turned into the text `"null"` is not modelled.
- `emitError` receives the CSS error `decl.error(message, { word })` as a string (line 127). The model records only the offending URL and the message. Source positions and the error's formatting are left out.
- The emitFile third argument (no source map) is left out.
- `postcss.plugin` registration (line 32) is left out.
- The stylesheet tree is not modelled. `walkDecls` is modelled as a walk over an array of declaration values. Only the values are modelled.
- `\w` is the ASCII word class of a regular expression without the `u` flag.
- UrlText.WrapUrl: its own contract states only the length. The full shape of the token is WrapUrlShape's contract, so that the many proofs that unfold WrapUrl stay small.
- OptimizationOptions.NormalizeOptimization: a top-level `null` is excluded by its precondition. `typeof null` is `'object'`, so the property read throws. Undeclared object properties such as inherited ones are not modelled. `JsValue` numbers are integers, so NaN and `-0` (both falsy in JavaScript) are not modelled; nor are BigInt and Symbol values.
- The `sourceMappingURL` comments at the end of both files are not code.
