/** Asset paths (lib/utils.ts): the base path from NEXT_PUBLIC_BASE_PATH
    followed by the path with a leading "/". */
module Utils {
  import opened Wrappers
  import opened Strings

  /** `path.startsWith('/') ? path : `/${path}``. */
  function NormalizePath(path: string): string
  {
    if StartsWith(path, "/") then path else "/" + path
  }

  /** `asset(path)`; `basePathEnv` is NEXT_PUBLIC_BASE_PATH, whose absence
      (`?? ''`) gives the empty base path. */
  function Asset(basePathEnv: Option<string>, path: string): string
  {
    basePathEnv.GetOr("") + NormalizePath(path)
  }

  /** The normalised path starts with "/", keeps a path that already does,
      and otherwise puts exactly one "/" in front of it. */
  lemma NormalizePathSpec(path: string)
    ensures var n := NormalizePath(path);
      && n != [] && n[0] == '/'
      && (path != [] && path[0] == '/' ==> n == path)
      && (path == [] || path[0] != '/' ==> n == "/" + path && n[1..] == path)
  {
    if path != [] && path[0] == '/' {
      assert path[..1] == "/";
    }
  }

  /** Normalising twice changes nothing. */
  lemma NormalizePathIdempotent(path: string)
    ensures NormalizePath(NormalizePath(path)) == NormalizePath(path)
  {
    NormalizePathSpec(path);
    NormalizePathSpec(NormalizePath(path));
  }

  /** The asset is the base path (empty when unset) followed by a path
      that starts with "/" and ends with the given path. */
  lemma AssetSpec(basePathEnv: Option<string>, path: string)
    ensures var base := basePathEnv.GetOr("");
      var a := Asset(basePathEnv, path);
      && |a| > |base|
      && a[..|base|] == base
      && a[|base|] == '/'
      && a[|a| - |path|..] == path
      && (basePathEnv.None? ==> a == NormalizePath(path))
  {
    var base := basePathEnv.GetOr("");
    var n := NormalizePath(path);
    NormalizePathSpec(path);
    var a := base + n;
    assert a[|base|..] == n;
    assert n[|n| - |path|..] == path;
  }

  /** Without a base path, an asset path is already its own asset. */
  lemma AssetIdempotent(path: string)
    ensures Asset(None, Asset(None, path)) == Asset(None, path)
    ensures Asset(Some(""), Asset(Some(""), path)) == Asset(Some(""), path)
  {
    NormalizePathIdempotent(path);
    assert "" + NormalizePath(path) == NormalizePath(path);
    assert "" + NormalizePath(NormalizePath(path)) == NormalizePath(NormalizePath(path));
  }
}
