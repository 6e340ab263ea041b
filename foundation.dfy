/** The few Foundation value types the app relies on: optional values and file URLs. */
module Foundation {

  /** Swift's `Optional`: `nil` or a wrapped value. */
  datatype Option<+T> = None | Some(value: T)

  /** A file URL, identified by its absolute string (percent-encoding is not modelled). */
  datatype Url = Url(absoluteString: string)

  /** True when `s` ends with a path separator. */
  predicate EndsWithSlash(s: string)
  {
    |s| > 0 && s[|s| - 1] == '/'
  }

  /**
   * `URL.appendingPathComponent`: joins a directory URL and one path
   * component with exactly one separator between them.
   */
  function AppendingPathComponent(directory: Url, component: string): (r: Url)
    ensures var prefix := |r.absoluteString| - |component|;
      0 < prefix && r.absoluteString[prefix..] == component && r.absoluteString[prefix - 1] == '/'
    ensures EndsWithSlash(directory.absoluteString) ==>
      r.absoluteString == directory.absoluteString + component
    ensures directory.absoluteString <= r.absoluteString
  {
    var s := directory.absoluteString;
    if EndsWithSlash(s) then Url(s + component) else Url(s + "/" + component)
  }

  /** The part of `s` after its last separator (all of `s` when it has none). */
  function AfterLastSlash(s: string): (r: string)
    ensures '/' !in r
    ensures |r| <= |s| && r == s[|s| - |r|..]
  {
    if s == [] then []
    else if s[|s| - 1] == '/' then []
    else AfterLastSlash(s[..|s| - 1]) + [s[|s| - 1]]
  }

  /** `URL.lastPathComponent` for a file (non-directory) URL. */
  function LastPathComponent(u: Url): string
  {
    AfterLastSlash(u.absoluteString)
  }

  lemma {:induction false} AfterLastSlashOfJoin(prefix: string, component: string)
    requires EndsWithSlash(prefix)
    requires '/' !in component
    ensures AfterLastSlash(prefix + component) == component
    decreases |component|
  {
    var s := prefix + component;
    if component == [] {
      assert s == prefix;
    } else {
      var n := |component| - 1;
      assert s[..|s| - 1] == prefix + component[..n];
      assert s[|s| - 1] == component[n];
      assert AfterLastSlash(s) == AfterLastSlash(s[..|s| - 1]) + [s[|s| - 1]];
      AfterLastSlashOfJoin(prefix, component[..n]);
      assert component == component[..n] + [component[n]];
    }
  }

  /** Appending a component and reading the last component back gives the component. */
  lemma LastComponentOfAppended(directory: Url, component: string)
    requires '/' !in component
    ensures LastPathComponent(AppendingPathComponent(directory, component)) == component
  {
    var s := directory.absoluteString;
    if EndsWithSlash(s) {
      AfterLastSlashOfJoin(s, component);
    } else {
      assert s + "/" + component == (s + "/") + component;
      AfterLastSlashOfJoin(s + "/", component);
    }
  }
}
