/** Path resolution in a fixed byte buffer (`src/kernel/mod.rs`, `src/kernel/fs/path.rs`). */
module Paths {
  import opened Prelude

  const MAX_PATH_BYTES: nat := 128
  const MAX_COMPONENT_BYTES: nat := 32
  const SLASH: byte := 47
  const DOT: byte := 46

  datatype PathError = Empty | TooLong | ComponentTooLong | NotAbsolute | InvalidByte | NameTooLong

  type Text = seq<byte>

  // ---------------------------------------------------------------------
  // The reference: a stack of components
  // ---------------------------------------------------------------------

  predicate IsDot(c: Text) {
    c == [DOT]
  }

  predicate IsDotDot(c: Text) {
    c == [DOT, DOT]
  }

  /** A component that may stand in a normalised path. */
  ghost predicate NormalComponent(c: Text) {
    && 0 < |c| <= MAX_COMPONENT_BYTES
    && !IsDot(c) && !IsDotDot(c)
    && SLASH !in c && 0 !in c
  }

  ghost predicate Normal(cs: seq<Text>) {
    forall i :: 0 <= i < |cs| ==> NormalComponent(cs[i])
  }

  /** Each component after a slash. */
  ghost function Slashed(cs: seq<Text>): Text {
    if cs == [] then [] else Slashed(cs[..|cs| - 1]) + [SLASH] + cs[|cs| - 1]
  }

  /** The text of an absolute path with these components. */
  ghost function Join(cs: seq<Text>): Text {
    if cs == [] then [SLASH] else Slashed(cs)
  }

  /** Take one raw component: drop nothing-components, pop on "..", never below the bottom. */
  ghost function Take(below: seq<Text>, c: Text): seq<Text> {
    if c == [] || IsDot(c) then below
    else if IsDotDot(c) then (if below == [] then below else below[..|below| - 1])
    else below + [c]
  }

  /** Resolve raw components above a fixed root, or fail when a path on the way is too long. */
  ghost function Resolve(root: seq<Text>, below: seq<Text>, raw: seq<Text>): Option<seq<Text>>
    decreases |raw|
  {
    if raw == [] then Some(below)
    else
      var next := Take(below, raw[0]);
      if |Join(root + next)| > MAX_PATH_BYTES then None
      else Resolve(root, next, raw[1..])
  }

  lemma TakeKeepsNormal(below: seq<Text>, c: Text)
    requires Normal(below) && SLASH !in c && 0 !in c && |c| <= MAX_COMPONENT_BYTES
    ensures Normal(Take(below, c))
  {
  }

  // ---------------------------------------------------------------------
  // Splitting and validating raw text
  // ---------------------------------------------------------------------

  /** `raw.split('/')`. */
  function Split(raw: Text): (cs: seq<Text>)
    ensures |cs| >= 1
  {
    if raw == [] then [[]]
    else
      var front, c := Split(raw[..|raw| - 1]), raw[|raw| - 1];
      if c == SLASH then front + [[]] else front[..|front| - 1] + [front[|front| - 1] + [c]]
  }

  /** How many bytes follow the last slash. */
  function RunLength(raw: Text): nat {
    if raw == [] || raw[|raw| - 1] == SLASH then 0 else 1 + RunLength(raw[..|raw| - 1])
  }

  /** No NUL byte and no run of more than 32 bytes without a slash. */
  ghost predicate ShortRuns(raw: Text) {
    && 0 !in raw
    && forall i :: 0 <= i <= |raw| ==> RunLength(raw[..i]) <= MAX_COMPONENT_BYTES
  }

  ghost predicate ValidRaw(raw: Text) {
    0 < |raw| <= MAX_PATH_BYTES && ShortRuns(raw)
  }

  /** Every component usable as it stands. */
  ghost predicate Usable(cs: seq<Text>) {
    forall i :: 0 <= i < |cs| ==> SLASH !in cs[i] && 0 !in cs[i] && |cs[i]| <= MAX_COMPONENT_BYTES
  }

  lemma UsableGrows(cs: seq<Text>, c: byte)
    requires Usable(cs) && cs != [] && c != 0
    ensures Usable(cs + [[]])
    ensures c != SLASH && |cs[|cs| - 1]| < MAX_COMPONENT_BYTES ==> Usable(cs[..|cs| - 1] + [cs[|cs| - 1] + [c]])
  {
  }

  lemma PrefixIsShort(raw: Text, n: nat)
    requires ShortRuns(raw) && n <= |raw|
    ensures ShortRuns(raw[..n]) && RunLength(raw[..n]) <= MAX_COMPONENT_BYTES
  {
    hide RunLength;
    var front := raw[..n];
    assert forall i :: 0 <= i <= |front| ==> front[..i] == raw[..i];
  }

  lemma {:induction false} SplitComponents(raw: Text)
    requires ShortRuns(raw)
    ensures var cs := Split(raw); |cs[|cs| - 1]| == RunLength(raw) && Usable(cs)
    decreases |raw|
  {
    if raw != [] {
      var n := |raw| - 1;
      PrefixIsShort(raw, n);
      PrefixIsShort(raw, |raw|);
      assert raw[..|raw|] == raw && raw[n] != 0;
      hide ShortRuns, Usable;
      SplitComponents(raw[..n]);
      UsableGrows(Split(raw[..n]), raw[n]);
    }
  }

  /** `Path::validate`. */
  method Validate(raw: Text, requireAbsolute: bool) returns (r: Result<(), PathError>)
    ensures r.Ok? <==> ValidRaw(raw) && (requireAbsolute ==> raw[0] == SLASH)
    ensures r == Err(Empty) <==> raw == []
    ensures r == Err(TooLong) <==> |raw| > MAX_PATH_BYTES
    ensures r == Err(NotAbsolute) <==> 0 < |raw| <= MAX_PATH_BYTES && requireAbsolute && raw[0] != SLASH
    ensures r == Err(InvalidByte) ==> 0 in raw
    ensures r == Err(ComponentTooLong) ==> exists i :: 0 <= i <= |raw| && RunLength(raw[..i]) > MAX_COMPONENT_BYTES
  {
    if |raw| == 0 {
      return Err(Empty);
    }
    if |raw| > MAX_PATH_BYTES {
      return Err(TooLong);
    }
    if requireAbsolute && raw[0] != SLASH {
      return Err(NotAbsolute);
    }
    var componentLen := 0;
    for i := 0 to |raw|
      invariant componentLen == RunLength(raw[..i])
      invariant 0 !in raw[..i]
      invariant forall k :: 0 <= k <= i ==> RunLength(raw[..k]) <= MAX_COMPONENT_BYTES
    {
      assert raw[..i + 1][..i] == raw[..i];
      if raw[i] == 0 {
        return Err(InvalidByte);
      } else if raw[i] == SLASH {
        componentLen := 0;
      } else {
        componentLen := componentLen + 1;
        if componentLen > MAX_COMPONENT_BYTES {
          assert !ShortRuns(raw) by {
            assert RunLength(raw[..i + 1]) > MAX_COMPONENT_BYTES;
          }
          return Err(ComponentTooLong);
        }
      }
    }
    assert raw[..|raw|] == raw;
    return Ok(());
  }

  // ---------------------------------------------------------------------
  // Joined paths
  // ---------------------------------------------------------------------

  lemma SlashedLast(cs: seq<Text>, c: Text)
    ensures Slashed(cs + [c]) == Slashed(cs) + [SLASH] + c
  {
    assert (cs + [c])[..|cs|] == cs;
  }

  lemma {:induction false} SlashedConcat(a: seq<Text>, b: seq<Text>)
    ensures Slashed(a + b) == Slashed(a) + Slashed(b)
    decreases |b|
  {
    if b == [] {
      assert a + b == a;
    } else {
      var n := |b| - 1;
      assert (a + b)[..|a + b| - 1] == a + b[..n];
      SlashedConcat(a, b[..n]);
    }
  }

  /** The root stays a prefix of everything resolved below it. */
  lemma RootIsPrefix(root: seq<Text>, below: seq<Text>)
    ensures |Join(root)| <= |Join(root + below)|
    ensures root != [] ==> Join(root + below)[..|Join(root)|] == Join(root)
    ensures Join(root)[0] == SLASH
  {
    SlashedConcat(root, below);
    if root == [] {
      assert root + below == below;
      if below != [] {
        assert |Slashed(below)| >= 1;
      }
    } else {
      StartsWithSlash(root);
    }
  }

  lemma {:induction false} StartsWithSlash(cs: seq<Text>)
    requires cs != []
    ensures |Slashed(cs)| >= 1 && Slashed(cs)[0] == SLASH
    decreases |cs|
  {
    if |cs| > 1 {
      StartsWithSlash(cs[..|cs| - 1]);
    }
  }

  lemma {:induction false} RunAfterSlash(before: Text, c: Text)
    requires SLASH !in c
    ensures RunLength(before + [SLASH] + c) == |c|
    decreases |c|
  {
    var whole := before + [SLASH] + c;
    if c != [] {
      var n := |c| - 1;
      assert whole[..|whole| - 1] == before + [SLASH] + c[..n];
      assert whole[|whole| - 1] == c[n];
      RunAfterSlash(before, c[..n]);
    }
  }

  lemma {:induction false} SlashedIsShort(cs: seq<Text>)
    requires Normal(cs)
    ensures ShortRuns(Slashed(cs))
    decreases |cs|
  {
    if cs != [] {
      var n := |cs| - 1;
      var front, c := Slashed(cs[..n]), cs[n];
      SlashedIsShort(cs[..n]);
      var whole := front + [SLASH] + c;
      assert NormalComponent(c);
      forall i | 0 <= i <= |whole|
        ensures RunLength(whole[..i]) <= MAX_COMPONENT_BYTES
      {
        if i <= |front| {
          assert whole[..i] == front[..i];
        } else {
          assert whole[..i] == front + [SLASH] + c[..i - |front| - 1];
          RunAfterSlash(front, c[..i - |front| - 1]);
        }
      }
    }
  }

  lemma JoinIsValid(cs: seq<Text>)
    requires Normal(cs) && |Join(cs)| <= MAX_PATH_BYTES
    ensures ValidRaw(Join(cs)) && Join(cs)[0] == SLASH
  {
    if cs == [] {
      assert ShortRuns([SLASH]);
    } else {
      SlashedIsShort(cs);
      StartsWithSlash(cs);
    }
  }

  // ---------------------------------------------------------------------
  // The buffer
  // ---------------------------------------------------------------------

  /** The last slash of a joined path stands just before the last component. */
  lemma LastComponent(cs: seq<Text>)
    requires Normal(cs) && cs != []
    ensures var s, front := Slashed(cs), Slashed(cs[..|cs| - 1]);
            && |front| + 1 < |s| && s[..|front|] == front && s[|front|] == SLASH
            && (forall k :: |front| < k < |s| ==> s[k] != SLASH)
            && (cs[..|cs| - 1] == [] <==> front == [])
  {
    var front, c := cs[..|cs| - 1], cs[|cs| - 1];
    assert NormalComponent(c);
    assert Slashed(cs) == Slashed(front) + [SLASH] + c;
    if front != [] {
      StartsWithSlash(front);
    }
  }

  /** Where the last component of a path with trailing slashes begins and ends, and what is left without it. */
  lemma PoppedText(cs: seq<Text>, trailing: Text, content: Text)
    requires Normal(cs) && (forall k :: 0 <= k < |trailing| ==> trailing[k] == SLASH)
    requires content == Slashed(cs) + trailing && content != []
    ensures forall k :: |Slashed(cs)| <= k < |content| ==> content[k] == SLASH
    ensures cs == [] ==> Slashed(cs) == [] && content[..1] == Join(cs)
    ensures cs != [] ==>
              var front, full := |Slashed(cs[..|cs| - 1])|, |Slashed(cs)|;
              && front + 1 < full <= |content| && content[front] == SLASH
              && (forall k :: front < k < full ==> content[k] != SLASH)
              && content[..AtLeastOne(front)] == Join(cs[..|cs| - 1])
  {
    if cs == [] {
      assert Slashed(cs) == [];
    } else {
      LastComponent(cs);
      hide Normal;
      var s, front := Slashed(cs), Slashed(cs[..|cs| - 1]);
      assert content[..|s|] == s && content[..|front|] == s[..|front|];
      assert forall k :: 0 <= k < |s| ==> content[k] == s[k];
      if front == [] {
        assert content[..1] == [SLASH];
      }
    }
  }

  function AtLeastOne(n: nat): nat {
    if n < 1 then 1 else n
  }

  class KernelPathBuf {
    const bytes: array<byte>
    var len: nat

    ghost predicate Valid()
      reads this
    {
      bytes.Length == MAX_PATH_BYTES && 1 <= len <= MAX_PATH_BYTES
    }

    ghost function Content(): Text
      requires Valid()
      reads this, bytes
    {
      bytes[..len]
    }

    constructor (raw: Text)
      requires 0 < |raw| <= MAX_PATH_BYTES
      ensures Valid() && fresh(bytes) && Content() == raw
    {
      bytes := new byte[MAX_PATH_BYTES](i => 0);
      len := |raw|;
      new;
      forall k | 0 <= k < |raw| {
        bytes[k] := raw[k];
      }
    }

    static method FromStr(raw: Text) returns (r: Result<KernelPathBuf, PathError>)
      ensures r == Err(TooLong) <==> raw == [] || |raw| > MAX_PATH_BYTES
      ensures r.Err? ==> r == Err(TooLong)
      ensures r.Ok? ==> fresh(r.value) && fresh(r.value.bytes) && r.value.Valid() && r.value.Content() == raw
    {
      if |raw| == 0 || |raw| > MAX_PATH_BYTES {
        return Err(TooLong);
      }
      var path := new KernelPathBuf(raw);
      return Ok(path);
    }

    /** Cut the last component off, in place, with any slashes that trail it. */
    method PopComponent(ghost cs: seq<Text>, ghost trailing: Text)
      requires Valid() && Normal(cs) && (forall k :: 0 <= k < |trailing| ==> trailing[k] == SLASH)
      requires Content() == Slashed(cs) + trailing
      modifies this`len
      ensures Valid() && Content() == Join(if cs == [] then cs else cs[..|cs| - 1])
    {
      ghost var front := if cs == [] then 0 else |Slashed(cs[..|cs| - 1])|;
      ghost var full := |Slashed(cs)|;
      ghost var content := Content();
      PoppedText(cs, trailing, content);
      hide Slashed, Normal, Join;
      assert forall k :: 0 <= k < len ==> bytes[k] == content[k];
      TrimSlashes(full);
      TrimName(front, full);
      if len > 1 {
        len := len - 1;
      }
    }

    /** Take slashes off the end, down to the first byte. */
    method TrimSlashes(ghost full: nat)
      requires Valid() && full <= len && (forall k :: full <= k < len ==> bytes[k] == SLASH)
      requires full > 0 ==> full > 1 && bytes[full - 1] != SLASH
      modifies this`len
      ensures Valid() && len == AtLeastOne(full)
    {
      while len > 1 && bytes[len - 1] == SLASH
        invariant 1 <= len <= old(len) && full <= len
        decreases len
      {
        len := len - 1;
      }
    }

    /** Take bytes off the end down to the last slash, or to the first byte. */
    method TrimName(ghost front: nat, ghost full: nat)
      requires Valid() && len == AtLeastOne(full)
      requires full > 0 ==> front + 1 < full && bytes[front] == SLASH && forall k :: front < k < full ==>
                 bytes[k] != SLASH
      modifies this`len
      ensures Valid() && len == if full > 0 then front + 1 else 1
    {
      while len > 1 && bytes[len - 1] != SLASH
        invariant full == 0 ==> len == 1
        invariant full > 0 ==> front + 1 <= len <= full
        decreases len
      {
        len := len - 1;
      }
    }

    /** Append `text` to the content. */
    method Append(text: Text)
      requires Valid() && len + |text| <= MAX_PATH_BYTES
      modifies this`len, bytes
      ensures Valid() && Content() == old(Content()) + text
    {
      var at := len;
      forall k | 0 <= k < |text| {
        bytes[at + k] := text[k];
      }
      len := at + |text|;
      ghost var now := bytes[..len];
      assert forall k :: 0 <= k < at ==> now[k] == old(bytes[k]);
      assert forall k :: at <= k < len ==> now[k] == text[k - at];
    }

    /** Write a slash, unless the buffer is the bare root, and the component after it. */
    method AppendComponent(component: Text, ghost cs: seq<Text>)
      requires Valid() && Normal(cs) && Content() == Join(cs) && component != []
      requires |Join(cs + [component])| <= MAX_PATH_BYTES
      modifies this`len, bytes
      ensures Valid() && Content() == Join(cs + [component])
    {
      SlashedLast(cs, component);
      JoinLength(cs);
      assert cs == [] ==> Slashed(cs) == [];
      hide Slashed, Normal;
      if len != 1 {
        Append([SLASH]);
      }
      assert Content() == Slashed(cs) + [SLASH];
      Append(component);
    }

    method PushComponent(component: Text, ghost cs: seq<Text>) returns (r: Result<(), PathError>)
      requires Valid() && Normal(cs) && Content() == Join(cs)
      modifies this`len, bytes
      ensures Valid()
      ensures var special := component == [] || IsDot(component) || IsDotDot(component);
              && (r.Err? <==>
                    !special && (|component| > MAX_COMPONENT_BYTES || |Join(cs + [component])| > MAX_PATH_BYTES))
              && (r.Ok? ==> Content() == Join(Take(cs, component)))
              && (r.Err? ==> Content() == old(Content())
                             && r.error == if |component| > MAX_COMPONENT_BYTES then NameTooLong else TooLong)
              && (special ==> bytes[..] == old(bytes[..]))
    {
      hide Normal;
      if component == [] || IsDot(component) {
        return Ok(());
      }
      if IsDotDot(component) {
        ghost var trailing := if cs == [] then [SLASH] else [];
        assert Content() == Slashed(cs) + trailing;
        hide Slashed;
        PopComponent(cs, trailing);
        return Ok(());
      }
      if |component| > MAX_COMPONENT_BYTES {
        return Err(NameTooLong);
      }
      SlashedLast(cs, component);
      JoinLength(cs);
      assert cs == [] ==> Slashed(cs) == [];
      hide Slashed;
      var extra := if len == 1 then |component| else |component| + 1;
      if len + extra > MAX_PATH_BYTES {
        return Err(TooLong);
      }
      AppendComponent(component, cs);
      return Ok(());
    }

    /** One turn of the resolution loop: push, then climb back to the root if the push went above it. */
    method ResolveComponent(component: Text, rootLen: nat, ghost root: seq<Text>, ghost below: seq<Text>)
      returns (r: Result<(), PathError>)
      requires Valid() && Normal(root) && Normal(below) && rootLen == |Join(root)|
      requires Content() == Join(root + below)
      requires SLASH !in component && 0 !in component && |component| <= MAX_COMPONENT_BYTES
      modifies this`len, bytes
      ensures Valid() && Normal(Take(below, component))
      ensures r.Ok? <==> |Join(root + Take(below, component))| <= MAX_PATH_BYTES
      ensures r.Ok? ==> Content() == Join(root + Take(below, component))
    {
      ResolveFacts(root, below, component);
      hide Normal, Slashed, Join, Take;
      var before := len;
      r := PushComponent(component, root + below);
      if r.Err? {
        return;
      }
      if (IsDotDot(component) && len < rootLen) || before < rootLen {
        len := AtLeastOne(rootLen);
      }
    }
  }

  // ---------------------------------------------------------------------
  // Resolution
  // ---------------------------------------------------------------------

  lemma TakeAboveRoot(root: seq<Text>, below: seq<Text>, c: Text)
    ensures below != [] || !IsDotDot(c) ==> Take(root + below, c) == root + Take(below, c)
    ensures below == [] && IsDotDot(c) ==> Take(below, c) == [] && Take(root + below, c) == Take(root, c)
  {
    if below == [] {
      assert root + below == root;
    } else if IsDotDot(c) {
      var n := |below| - 1;
      assert (root + below)[..|root + below| - 1] == root + below[..n];
    }
    assert c != [] && !IsDot(c) && !IsDotDot(c) ==> root + below + [c] == root + (below + [c]);
  }

  /** What pushing a component on a path at or below the root comes to. */
  lemma ResolveFacts(root: seq<Text>, below: seq<Text>, component: Text)
    requires Normal(root) && Normal(below)
    requires SLASH !in component && 0 !in component && |component| <= MAX_COMPONENT_BYTES
    ensures Normal(root + below) && Normal(Take(below, component))
    ensures |Join(root)| <= |Join(root + below)| && |Join(root)| >= 1
    ensures var next := Take(below, component);
            && (component == [] || IsDot(component) ==> next == below && Take(root + below, component) == root + below)
            && (component != [] && !IsDot(component) && !IsDotDot(component) ==>
                  Take(root + below, component) == root + below + [component] == root + next)
            && (IsDotDot(component) && below != [] ==>
                  && Take(root + below, component) == root + next
                  && |Join(root)| <= |Join(root + next)| <= |Join(root + below)|)
            && (IsDotDot(component) && below == [] ==>
                  && root + next == root == root + below
                  && |Join(Take(root, component))| <= |Join(root)|
                  && (|Join(Take(root, component))| == |Join(root)| ==> Join(Take(root, component)) == Join(root)))
  {
    NormalConcat(root, below);
    TakeKeepsNormal(below, component);
    TakeAboveRoot(root, below, component);
    RootIsPrefix(root, below);
    RootIsPrefix(root, Take(below, component));
    PopIsShorter(root);
    PopIsShorter(root + below);
    assert below == [] ==> root + below == root;
    assert Take(below, component) == [] ==> root + Take(below, component) == root;
    hide Normal, Slashed, Join;
  }

  lemma ResolveStep(root: seq<Text>, below: seq<Text>, cs: seq<Text>, i: nat)
    requires i < |cs|
    ensures Resolve(root, below, cs[i..])
            == if |Join(root + Take(below, cs[i]))| > MAX_PATH_BYTES then None
               else Resolve(root, Take(below, cs[i]), cs[i + 1..])
  {
    assert cs[i..][1..] == cs[i + 1..];
  }

  lemma ResolveEnds(root: seq<Text>, below: seq<Text>, cs: seq<Text>)
    ensures Resolve(root, below, cs[|cs|..]) == Some(below)
  {
  }

  /** The loop of `resolve_path_str` over the components of the raw path. */
  method ResolveComponents(path: KernelPathBuf, components: seq<Text>, rootLen: nat,
                           ghost root: seq<Text>, ghost start: seq<Text>)
    returns (r: Result<(), PathError>)
    requires path.Valid() && Normal(root) && Normal(start) && Usable(components)
    requires rootLen == |Join(root)| && path.Content() == Join(root + start)
    modifies path, path.bytes
    ensures path.Valid()
    ensures r.Ok? <==> Resolve(root, start, components).Some?
    ensures r.Ok? ==>
              var below := Resolve(root, start, components).value;
              Normal(below) && path.Content() == Join(root + below)
  {
    hide Normal, Slashed, Join, Resolve, Take;
    ghost var below := start;
    assert components[0..] == components;
    for i := 0 to |components|
      invariant path.Valid() && Normal(below) && path.Content() == Join(root + below)
      invariant Resolve(root, below, components[i..]) == Resolve(root, start, components)
    {
      ResolveStep(root, below, components, i);
      var pushed := path.ResolveComponent(components[i], rootLen, root, below);
      if pushed.Err? {
        return Err(pushed.error);
      }
      below := Take(below, components[i]);
    }
    ResolveEnds(root, below, components);
    return Ok(());
  }

  /**
   * `resolve_path_str` after the start directory is known: `base` is the
   * working directory or the path of an open directory, at or below `root`.
   */
  method ResolvePathStr(ghost root: seq<Text>, ghost start: seq<Text>, rootText: Text, baseText: Text, raw: Text)
    returns (r: Result<Text, PathError>)
    requires Normal(root) && Normal(start)
    requires rootText == Join(root) && baseText == Join(root + start)
    ensures r.Ok? <==>
              && ValidRaw(raw)
              && |if raw[0] == SLASH then rootText else baseText| <= MAX_PATH_BYTES
              && Resolve(root, if raw[0] == SLASH then [] else start, Split(raw)).Some?
    ensures r.Ok? ==>
              var below := Resolve(root, if raw[0] == SLASH then [] else start, Split(raw)).value;
              Normal(below) && r.value == Join(root + below) && |r.value| <= MAX_PATH_BYTES
  {
    assert root + [] == root && Normal([]);
    JoinLength(root);
    RootIsPrefix(root, start);
    hide Normal, Slashed, ShortRuns, Join, Resolve, Split, Take;
    var valid := Validate(raw, false);
    if valid.Err? {
      return Err(valid.error);
    }
    SplitComponents(raw);
    ghost var from := if raw[0] == SLASH then [] else start;
    var buffer := KernelPathBuf.FromStr(if raw[0] == SLASH then rootText else baseText);
    if buffer.Err? {
      return Err(buffer.error);
    }
    var resolved := buffer.value;
    var walked := ResolveComponents(resolved, Split(raw), |rootText|, root, from);
    if walked.Err? {
      return Err(walked.error);
    }
    var path := resolved.bytes[..resolved.len];
    ghost var below := Resolve(root, from, Split(raw)).value;
    NormalConcat(root, below);
    JoinIsValid(root + below);
    var final := Validate(path, true);
    match final {
      case Err(error) => return Err(error);
      case Ok(_) => return Ok(path);
    }
  }

  lemma NormalConcat(a: seq<Text>, b: seq<Text>)
    requires Normal(a) && Normal(b)
    ensures Normal(a + b)
  {
  }

  lemma PopIsShorter(cs: seq<Text>)
    ensures |Join(Take(cs, [DOT, DOT]))| <= |Join(cs)|
  {
  }

  lemma JoinLength(cs: seq<Text>)
    requires Normal(cs)
    ensures |Join(cs)| == 1 <==> cs == []
    ensures |Join(cs)| >= 1
  {
    if cs != [] {
      assert NormalComponent(cs[|cs| - 1]);
    }
  }

  // ---------------------------------------------------------------------
  // What splitting and resolving mean
  // ---------------------------------------------------------------------

  /** Splitting loses nothing: the components joined by slashes are the raw text. */
  lemma {:induction false} SplitJoins(raw: Text)
    ensures Slashed(Split(raw)) == [SLASH] + raw
    decreases |raw|
  {
    hide Slashed;
    if raw == [] {
      SlashedLast([], []);
      SlashedNone();
      assert [] + [raw] == Split(raw);
    } else {
      var n := |raw| - 1;
      var cs, c := Split(raw[..n]), raw[n];
      var front, last := cs[..|cs| - 1], cs[|cs| - 1];
      SplitJoins(raw[..n]);
      assert raw == raw[..n] + [c];
      if c == SLASH {
        SlashedLast(cs, []);
      } else {
        SlashedLast(front, last);
        assert cs == front + [last];
        SlashedLast(front, last + [c]);
        assert Slashed(front) + [SLASH] + (last + [c]) == Slashed(front) + [SLASH] + last + [c];
      }
    }
  }

  lemma SlashedNone()
    ensures Slashed([]) == []
  {
  }

  lemma {:induction false} SplitAfterSlash(before: Text, c: Text)
    requires SLASH !in c
    ensures Split(before + [SLASH] + c) == Split(before) + [c]
    decreases |c|
  {
    var whole := before + [SLASH] + c;
    if c == [] {
      assert whole[..|whole| - 1] == before;
    } else {
      var n := |c| - 1;
      assert whole[..|whole| - 1] == before + [SLASH] + c[..n];
      assert c == c[..n] + [c[n]];
      SplitAfterSlash(before, c[..n]);
    }
  }

  lemma {:induction false} SplitSlashed(cs: seq<Text>)
    requires Normal(cs)
    ensures Split(Slashed(cs)) == [[]] + cs
    decreases |cs|
  {
    if cs != [] {
      var n := |cs| - 1;
      assert NormalComponent(cs[n]);
      SplitSlashed(cs[..n]);
      SplitAfterSlash(Slashed(cs[..n]), cs[n]);
      assert cs == cs[..n] + [cs[n]];
    }
  }

  lemma {:induction false} ResolvePushes(below: seq<Text>, cs: seq<Text>)
    requires Normal(below) && Normal(cs) && |Join(below + cs)| <= MAX_PATH_BYTES
    ensures Resolve([], below, cs) == Some(below + cs)
    decreases |cs|
  {
    if cs == [] {
      assert below + cs == below;
    } else {
      var next := below + [cs[0]];
      assert NormalComponent(cs[0]);
      assert below + cs == next + cs[1..];
      assert [] + next == next;
      RootIsPrefix(next, cs[1..]);
      ResolvePushes(next, cs[1..]);
    }
  }

  /** A resolved path is a fixed point: resolved again from the top it is itself. */
  lemma ResolvedIsFixed(cs: seq<Text>)
    requires Normal(cs) && |Join(cs)| <= MAX_PATH_BYTES
    ensures Resolve([], [], Split(Join(cs))) == Some(cs)
  {
    if cs == [] {
      assert Split([SLASH]) == [[], []] by {
        SplitAfterSlash([], []);
        assert [] + [SLASH] + [] == [SLASH];
      }
      assert Join([]) == [SLASH];
      var blank: seq<Text> := [[], []];
      ResolveStep([], [], blank, 0);
      ResolveStep([], [], blank, 1);
      ResolveEnds([], [], blank);
      assert blank[0..] == blank;
    } else {
      SplitSlashed(cs);
      ResolveStep([], [], [[]] + cs, 0);
      assert ([[]] + cs)[0..] == [[]] + cs && ([[]] + cs)[1..] == cs;
      assert [] + cs == cs;
      ResolvePushes([], cs);
    }
  }
}
