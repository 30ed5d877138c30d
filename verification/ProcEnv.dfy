/**
 The environment of a process, packed in one block of memory, as in src/lprocesf.c: an array of pointers
 ended by NULL, and after it the strings `name=value`, each ended by NUL.

 A Lua table is the sequence of its fields in the order of traversal, which both passes share.  Lua
 strings may hold NUL, C strings end there.
 */
module ProcEnv {

  const NUL: char := '\0'

  datatype Option<T> = None | Some(value: T)

  /** The value of a field: other types than string and number have no string. */
  datatype Value = NotString | Str(s: string)

  datatype Field = Field(name: string, value: Value)

  datatype Pair = Pair(name: string, value: string)

  datatype Pointer = Null | At(pos: nat)

  // ---------------------------------------------------------------- what is packed

  /** A Lua string as C reads it. */
  function CStr(s: string): (r: string)
    ensures r <= s && NUL !in r
  {
    if s == "" || s[0] == NUL then "" else [s[0]] + CStr(s[1..])
  }

  lemma {:induction false} CStrWhole(s: string)
    ensures CStr(s) == s <==> NUL !in s
    ensures NUL in s ==> |CStr(s)| < |s| && s[|CStr(s)|] == NUL
  {
    if s != "" && s[0] != NUL {
      CStrWhole(s[1..]);
      assert s == [s[0]] + s[1..];
      assert CStr(s)[1..] == CStr(s[1..]);
      assert NUL in s <==> NUL in s[1..];
    }
  }

  predicate Bad(f: Field) {
    f.value.NotString? || '=' in CStr(f.name)
  }

  /** Position of the first field that cannot be packed. */
  function FirstBad(tab: seq<Field>): (i: nat)
    ensures i <= |tab|
    ensures i < |tab| ==> Bad(tab[i])
    ensures forall k :: 0 <= k < i ==> !Bad(tab[k])
  {
    if tab == [] || Bad(tab[0]) then 0 else 1 + FirstBad(tab[1..])
  }

  predicate Accepted(tab: seq<Field>) {
    forall k :: 0 <= k < |tab| ==> !Bad(tab[k])
  }

  /** A field as C sees it. */
  function Cut(f: Field): Pair
    requires !Bad(f)
  {
    Pair(CStr(f.name), CStr(f.value.s))
  }

  function Truncated(tab: seq<Field>): (ps: seq<Pair>)
    requires Accepted(tab)
  {
    seq(|tab|, k requires 0 <= k < |tab| => Cut(tab[k]))
  }

  /** The fields as Lua sees them. */
  function Whole(tab: seq<Field>): (ps: seq<Pair>)
    requires Accepted(tab)
  {
    seq(|tab|, k requires 0 <= k < |tab| => Pair(tab[k].name, tab[k].value.s))
  }

  function Chunk(p: Pair): string {
    p.name + "=" + p.value + [NUL]
  }

  function Flat(ps: seq<Pair>): string {
    if ps == [] then "" else Flat(ps[..|ps| - 1]) + Chunk(ps[|ps| - 1])
  }

  /** No NUL anywhere and no `=` in a name. */
  predicate Clean(p: Pair) {
    NUL !in p.name && NUL !in p.value && '=' !in p.name
  }

  predicate AllClean(ps: seq<Pair>) {
    forall k :: 0 <= k < |ps| ==> Clean(ps[k])
  }

  lemma TruncatedClean(tab: seq<Field>)
    requires Accepted(tab)
    ensures AllClean(Truncated(tab))
  {
    forall k | 0 <= k < |tab| ensures Clean(Truncated(tab)[k]) {
      assert !Bad(tab[k]);
    }
  }

  /** The block holds exactly these strings, one after the other, and a pointer to each. */
  ghost predicate Packed(envl: seq<Pointer>, text: string, ps: seq<Pair>) {
    Pointers(envl, ps, |ps|) && envl[|ps|] == Null && text == Flat(ps)
  }

  /** The first `n` pointers are set. */
  ghost predicate Pointers(envl: seq<Pointer>, ps: seq<Pair>, n: nat) {
    n <= |ps| && |envl| == |ps| + 1 && forall k :: 0 <= k < n ==> envl[k] == At(|Flat(ps[..k])|)
  }

  lemma PointersNext(envl: seq<Pointer>, ps: seq<Pair>, n: nat)
    requires Pointers(envl, ps, n) && n < |ps|
    ensures Pointers(envl[n := At(|Flat(ps[..n])|)], ps, n + 1)
  {
  }

  lemma PointersEnd(envl: seq<Pointer>, ps: seq<Pair>)
    requires Pointers(envl, ps, |ps|)
    ensures Pointers(envl[|ps| := Null], ps, |ps|)
  {
  }

  lemma FlatNext(ps: seq<Pair>, k: nat)
    requires k < |ps|
    ensures Flat(ps[..k + 1]) == Flat(ps[..k]) + Chunk(ps[k])
  {
    assert ps[..k + 1][..k] == ps[..k];
  }

  lemma {:induction false} FlatPrefix(ps: seq<Pair>, k: nat)
    requires k <= |ps|
    ensures Flat(ps[..k]) <= Flat(ps)
    decreases |ps| - k
  {
    if k < |ps| {
      FlatPrefix(ps, k + 1);
      FlatNext(ps, k);
    } else {
      assert ps[..k] == ps;
    }
  }

  // ---------------------------------------------------------------- packing

  class Env {
    const envl: array<Pointer>
    const text: array<char>

    constructor (envl: array<Pointer>, text: array<char>)
      ensures this.envl == envl && this.text == text
    {
      this.envl := envl;
      this.text := text;
    }
  }

  datatype Packing = BadName(name: string) | Done(env: Env)

  /** Size of the block. */
  function Needed(tab: seq<Field>, word: nat): nat
    requires Accepted(tab)
  {
    word * (|tab| + 1) + |Flat(Truncated(tab))|
  }

  lemma MeasureNext(tab: seq<Field>, k: nat, word: nat)
    requires k < |tab| && Accepted(tab[..k]) && !Bad(tab[k])
    ensures Accepted(tab[..k + 1])
    ensures Needed(tab[..k + 1], word) == Needed(tab[..k], word) + word + |Chunk(Cut(tab[k]))|
  {
    assert tab[..k + 1] == tab[..k] + [tab[k]];
    var ps := Truncated(tab[..k + 1]);
    assert ps[..k] == Truncated(tab[..k]);
    FlatNext(ps, k);
    assert ps[..k + 1] == ps;
    assert word * (k + 2) == word * (k + 1) + word;
  }

  /** First pass: counts the fields and the bytes, the pointers being `word` bytes each. */
  method Measure(tab: seq<Field>, word: nat) returns (bad: Option<string>, envc: nat, envsz: nat)
    ensures bad == if Accepted(tab) then None else Some(CStr(tab[FirstBad(tab)].name))
    ensures bad == None ==> envc == |tab| && envsz == Needed(tab, word)
  {
    envc, envsz, bad := 0, word, None;
    while envc < |tab|
      invariant envc <= |tab| && Accepted(tab[..envc])
      invariant envsz == Needed(tab[..envc], word)
    {
      var f := tab[envc];
      if f.value.NotString? || '=' in CStr(f.name) {
        assert FirstBad(tab) == envc;
        return Some(CStr(f.name)), envc, envsz;
      }
      MeasureNext(tab, envc, word);
      envsz := envsz + word + |CStr(f.name)| + 1 + |CStr(f.value.s)| + 1;
      envc := envc + 1;
    }
    assert tab[..envc] == tab;
  }

  /** A character of a Lua string, which has a NUL behind its last. */
  function CharAt(s: string, c: nat): char {
    if c < |s| then s[c] else NUL
  }

  lemma {:induction false} CharInCStr(s: string, c: nat)
    requires c <= |CStr(s)|
    ensures CharAt(s, c) == if c < |CStr(s)| then CStr(s)[c] else NUL
  {
    if c == |CStr(s)| {
      CStrWhole(s);
    }
  }

  /** Copies the string up to its NUL, which is left out, character by character. */
  method CopyName(text: array<char>, at: nat, s: string) returns (end: nat)
    requires at + |CStr(s)| < text.Length
    modifies text
    ensures end == at + |CStr(s)|
    ensures text[..end] == old(text[..at]) + CStr(s)
  {
    var c := 0;
    end := at;
    CharInCStr(s, c);
    while CharAt(s, c) != NUL
      invariant c <= |CStr(s)| && end == at + c
      invariant CharAt(s, c) == if c < |CStr(s)| then CStr(s)[c] else NUL
      invariant text[..end] == old(text[..at]) + CStr(s)[..c]
      decreases |CStr(s)| - c
    {
      text[end] := CharAt(s, c);
      assert text[..end + 1] == text[..end] + [CStr(s)[c]];
      assert CStr(s)[..c + 1] == CStr(s)[..c] + [CStr(s)[c]];
      end := end + 1;
      c := c + 1;
      CharInCStr(s, c);
    }
  }

  /** Copies the string and a character after it: `=` after a name, NUL after a value. */
  method CopyUpTo(text: array<char>, at: nat, s: string, last: char) returns (end: nat)
    requires at + |CStr(s)| < text.Length
    modifies text
    ensures end == at + |CStr(s)| + 1
    ensures text[..end] == old(text[..at]) + (CStr(s) + [last])
  {
    end := CopyName(text, at, s);
    text[end] := last;
    assert text[..end + 1] == text[..end] + [last];
    end := end + 1;
  }

  /** The body of the second pass: one `name=value` string. */
  method PutField(text: array<char>, at: nat, f: Field) returns (end: nat)
    requires !Bad(f) && at + |Chunk(Cut(f))| <= text.Length
    modifies text
    ensures end == at + |Chunk(Cut(f))|
    ensures text[..end] == old(text[..at]) + Chunk(Cut(f))
  {
    end := CopyUpTo(text, at, f.name, '=');
    end := CopyUpTo(text, end, f.value.s, NUL);
    ghost var before := old(text[..at]);
    assert before + (CStr(f.name) + ['=']) + (CStr(f.value.s) + [NUL]) == before + Chunk(Cut(f));
  }

  /** Second pass: writes the bytes the first counted, all of them and no more. */
  method Fill(tab: seq<Field>, envl: array<Pointer>, text: array<char>)
    requires Accepted(tab) && envl.Length == |tab| + 1 && text.Length == |Flat(Truncated(tab))|
    modifies envl, text
    ensures Packed(envl[..], text[..], Truncated(tab))
  {
    ghost var ps := Truncated(tab);
    var i, envv := 0, 0;
    assert ps[..0] == [];
    while i < |tab|
      invariant i <= |tab| && envv == |Flat(ps[..i])| <= text.Length
      invariant text[..envv] == Flat(ps[..i])
      invariant Pointers(envl[..], ps, i)
    {
      FlatNext(ps, i);
      FlatPrefix(ps, i + 1);
      PointersNext(envl[..], ps, i);
      envl[i] := At(envv);
      envv := PutField(text, envv, tab[i]);
      i := i + 1;
    }
    assert ps[..i] == ps;
    assert text[..envv] == text[..];
    PointersEnd(envl[..], ps);
    envl[i] := Null;
  }

  /** `newprocenv`. */
  method NewProcEnv(tab: seq<Field>, word: nat) returns (r: Packing)
    ensures r.Done? <==> forall k :: 0 <= k < |tab| ==> tab[k].value.Str? && '=' !in CStr(tab[k].name)
    ensures r.BadName? ==>
              exists k :: 0 <= k < |tab| && r.name == CStr(tab[k].name) && (tab[k].value.NotString? || '=' in r.name)
                && forall j :: 0 <= j < k ==> tab[j].value.Str? && '=' !in CStr(tab[j].name)
    ensures r.Done? <==> Accepted(tab)
    ensures r.BadName? ==> r.name == CStr(tab[FirstBad(tab)].name)
    ensures r.Done? ==> Packed(r.env.envl[..], r.env.text[..], Truncated(tab))
  {
    var bad, envc, envsz := Measure(tab, word);
    assert forall k :: 0 <= k < |tab| ==> (Bad(tab[k]) <==> tab[k].value.NotString? || '=' in CStr(tab[k].name));
    if bad.Some? {
      return BadName(bad.value);
    }
    var envl := new Pointer[envc + 1](_ => Null);
    var text := new char[envsz - word * (envc + 1)](_ => NUL);
    Fill(tab, envl, text);
    var env := new Env(envl, text);
    return Done(env);
  }

  // ---------------------------------------------------------------- the string functions of C

  /** There is a NUL to stop at. */
  ghost predicate Ends(text: string, p: nat) {
    exists q :: p <= q < |text| && text[q] == NUL
  }

  function StrEnd(text: string, p: nat): (q: nat)
    requires Ends(text, p)
    ensures p <= q < |text| && text[q] == NUL && NUL !in text[p..q]
    decreases |text| - p
  {
    if text[p] == NUL then p else StrEnd(text, p + 1)
  }

  function StrChr(text: string, p: nat, c: char): (r: Option<nat>)
    requires Ends(text, p)
    ensures r.Some? ==> p <= r.value < |text| && text[r.value] == c && c !in text[p..r.value]
    decreases |text| - p
  {
    if text[p] == c then Some(p) else if text[p] == NUL then None else StrChr(text, p + 1, c)
  }

  /** Whether `strncmp` answers 0, for all characters of a Lua string. */
  function StrNEq(s: string, text: string, p: nat): (r: bool)
    requires Ends(text, p)
    decreases |s|
  {
    s == "" || (s[0] == text[p] && (s[0] == NUL || StrNEq(s[1..], text, p + 1)))
  }

  // ---------------------------------------------------------------- reading back

  /** One of the strings starts here. */
  ghost predicate Here(text: string, p: nat, pr: Pair) {
    p + |Chunk(pr)| <= |text| && text[p..p + |Chunk(pr)|] == Chunk(pr)
  }

  lemma HereAt(text: string, ps: seq<Pair>, k: nat)
    requires text == Flat(ps) && k < |ps|
    ensures Here(text, |Flat(ps[..k])|, ps[k])
  {
    FlatNext(ps, k);
    FlatPrefix(ps, k + 1);
    var p := |Flat(ps[..k])|;
    assert text[..p + |Chunk(ps[k])|] == Flat(ps[..k + 1]);
    assert text[p..p + |Chunk(ps[k])|] == Flat(ps[..k + 1])[p..];
  }

  lemma HereChars(text: string, p: nat, pr: Pair)
    requires Here(text, p, pr)
    ensures text[p..p + |pr.name|] == pr.name
    ensures text[p + |pr.name|] == '='
    ensures text[p + |pr.name| + 1..p + |pr.name| + 1 + |pr.value|] == pr.value
    ensures text[p + |pr.name| + 1 + |pr.value|] == NUL
    ensures Ends(text, p) && Ends(text, p + |pr.name| + 1)
  {
    var c, n, e := Chunk(pr), |pr.name|, |pr.name| + 1 + |pr.value|;
    assert c[..n] == pr.name && c[n + 1..e] == pr.value && c[n] == '=' && c[e] == NUL;
    Part(text, p, c, 0, n);
    Part(text, p, c, n + 1, e);
    assert text[p..p + |c|][n] == c[n] && text[p..p + |c|][e] == c[e];
    assert text[p + e] == NUL;
  }

  lemma Part(text: string, p: nat, c: string, a: nat, b: nat)
    requires p + |c| <= |text| && text[p..p + |c|] == c && a <= b <= |c|
    ensures text[p + a..p + b] == c[a..b]
  {
    var t, u := text[p + a..p + b], c[a..b];
    forall i | 0 <= i < b - a ensures t[i] == u[i] {
      assert text[p..p + |c|][a + i] == c[a + i];
    }
  }

  lemma {:induction false} EndIs(text: string, p: nat, q: nat)
    requires p <= q < |text| && text[q] == NUL && NUL !in text[p..q]
    ensures Ends(text, p) && StrEnd(text, p) == q
    decreases q - p
  {
    if p < q {
      assert text[p] in text[p..q];
      assert text[p + 1..q] == text[p..q][1..];
      EndIs(text, p + 1, q);
    }
  }

  lemma {:induction false} ChrIs(text: string, p: nat, q: nat, c: char)
    requires p <= q < |text| && text[q] == c && c !in text[p..q] && NUL !in text[p..q] && Ends(text, p)
    ensures StrChr(text, p, c) == Some(q)
    decreases q - p
  {
    if p < q {
      assert text[p] in text[p..q];
      assert text[p + 1..q] == text[p..q][1..];
      ChrIs(text, p + 1, q, c);
    }
  }

  /** The comparison reaches over the whole of a string without NUL; in another it stops at the NUL,
      where the text must end too. */
  lemma {:induction false} NEqReads(s: string, text: string, p: nat)
    requires Ends(text, p) && StrNEq(s, text, p)
    ensures p + |CStr(s)| < |text|
    ensures forall i :: 0 <= i < |CStr(s)| ==> text[p + i] == s[i]
    ensures |CStr(s)| < |s| ==> text[p + |CStr(s)|] == NUL
    decreases |s|
  {
    if s != "" && s[0] != NUL {
      NEqReads(s[1..], text, p + 1);
      forall i | 0 <= i < |CStr(s)| ensures text[p + i] == s[i] {
        assert i > 0 ==> text[p + 1 + (i - 1)] == s[1..][i - 1];
      }
    }
  }

  lemma {:induction false} NEqHolds(s: string, text: string, p: nat)
    requires Ends(text, p) && NUL !in s && p + |s| < |text|
    requires forall i :: 0 <= i < |s| ==> text[p + i] == s[i]
    ensures StrNEq(s, text, p)
    decreases |s|
  {
    if s != "" {
      assert text[p + 0] == s[0];
      forall i | 0 <= i < |s| - 1 ensures text[p + 1 + i] == s[1..][i] {
        assert text[p + (i + 1)] == s[i + 1];
      }
      NEqHolds(s[1..], text, p + 1);
    }
  }

  /** The test of the lookup finds the string of that name and no other, and reads no byte beyond it. */
  lemma MatchIs(s: string, text: string, p: nat, pr: Pair)
    requires Here(text, p, pr) && Clean(pr) && '=' !in CStr(s)
    ensures Ends(text, p)
    ensures StrNEq(s, text, p) ==> p + |s| < p + |Chunk(pr)|
    ensures StrNEq(s, text, p) && text[p + |s|] == '=' <==> s == pr.name
  {
    HereChars(text, p, pr);
    if StrNEq(s, text, p) {
      MatchFits(s, text, p, pr);
    } else if s == pr.name {
      NameMatches(text, p, pr);
    }
  }

  lemma MatchFits(s: string, text: string, p: nat, pr: Pair)
    requires Here(text, p, pr) && Clean(pr) && '=' !in CStr(s) && Ends(text, p) && StrNEq(s, text, p)
    ensures |s| <= |pr.name| && (text[p + |s|] == '=' <==> s == pr.name)
  {
    HereChars(text, p, pr);
    MatchInside(s, text, p, pr);
    if text[p + |s|] == '=' {
      MatchWhole(s, text, p, pr.name);
    }
  }

  lemma MatchInside(s: string, text: string, p: nat, pr: Pair)
    requires Here(text, p, pr) && Clean(pr) && '=' !in CStr(s) && Ends(text, p) && StrNEq(s, text, p)
    ensures |s| <= |pr.name| && forall i :: 0 <= i < |s| ==> text[p + i] == s[i]
  {
    HereChars(text, p, pr);
    NoNulBefore(text, p, pr);
    MatchReads(s, text, p, |pr.name|);
  }

  /** A match up to an `=` is the whole name, since a name has none. */
  lemma MatchWhole(s: string, text: string, p: nat, name: string)
    requires |s| <= |name| && p + |name| < |text| && text[p..p + |name|] == name && '=' !in name
    requires text[p + |s|] == '=' && forall i :: 0 <= i < |s| ==> text[p + i] == s[i]
    ensures s == name
  {
    var cut := text[p..p + |name|];
    forall i | 0 <= i < |name| ensures text[p + i] == name[i] {
      assert cut[i] == text[p + i];
    }
    ReadIn(name, text, p, |s|);
  }

  lemma NameMatches(text: string, p: nat, pr: Pair)
    requires Here(text, p, pr) && Clean(pr) && Ends(text, p)
    ensures StrNEq(pr.name, text, p)
  {
    HereChars(text, p, pr);
    var cut := text[p..p + |pr.name|];
    forall i | 0 <= i < |pr.name| ensures text[p + i] == pr.name[i] {
      assert cut[i] == text[p + i];
    }
    NEqHolds(pr.name, text, p);
  }

  lemma ReadIn(c: string, text: string, p: nat, n: nat)
    requires p + |c| <= |text| && forall i :: 0 <= i < |c| ==> text[p + i] == c[i]
    ensures n < |c| ==> text[p + n] in c
  {
    if n < |c| {
      assert text[p + n] == c[n];
    }
  }

  /** A match reaches no further than the first `=`. */
  lemma MatchReads(s: string, text: string, p: nat, n: nat)
    requires Ends(text, p) && StrNEq(s, text, p) && '=' !in CStr(s)
    requires p + n < |text| && text[p + n] == '=' && forall q :: p <= q < p + n ==> text[q] != NUL
    ensures |s| <= n && NUL !in s && forall i :: 0 <= i < |s| ==> text[p + i] == s[i]
  {
    NEqReads(s, text, p);
    CStrWhole(s);
    var m := |CStr(s)|;
    assert forall i :: 0 <= i < m ==> CStr(s)[i] == s[i];
    ReadIn(CStr(s), text, p, n);
    assert m <= n;
  }

  lemma NoNulBefore(text: string, p: nat, pr: Pair)
    requires Here(text, p, pr) && Clean(pr)
    ensures forall q :: p <= q < p + |pr.name| + 1 + |pr.value| ==> text[q] != NUL
  {
    HereChars(text, p, pr);
    forall q | p <= q < p + |pr.name| + 1 + |pr.value| ensures text[q] != NUL {
      if q < p + |pr.name| {
        assert text[q] == text[p..p + |pr.name|][q - p];
      } else if q > p + |pr.name| {
        var v := p + |pr.name| + 1;
        assert text[q] == text[v..v + |pr.value|][q - v];
      }
    }
  }

  /** Fields assigned one after the other. */
  function Into(tab: map<string, string>, ps: seq<Pair>): map<string, string> {
    if ps == [] then tab else Into(tab, ps[..|ps| - 1])[ps[|ps| - 1].name := ps[|ps| - 1].value]
  }

  /** The body of the loop of `system_unpackenv`. */
  method ReadField(text: string, p: nat, ghost pr: Pair) returns (name: string, value: string)
    requires Here(text, p, pr) && Clean(pr)
    ensures name == pr.name && value == pr.value
  {
    HereChars(text, p, pr);
    NoNulBefore(text, p, pr);
    ghost var eq := p + |pr.name|;
    forall q | p <= q < eq ensures text[q] != '=' {
      assert text[q] == text[p..eq][q - p];
    }
    ChrIs(text, p, eq, '=');
    EndIs(text, eq + 1, eq + 1 + |pr.value|);
    var at := StrChr(text, p, '=').value;
    name := text[p..at];
    at := at + 1;
    value := text[at..StrEnd(text, at)];
  }

  /** `system_unpackenv`, into a new table or the one given. */
  method UnpackEnv(env: Env, ghost ps: seq<Pair>, given: map<string, string>) returns (tab: map<string, string>)
    requires Packed(env.envl[..], env.text[..], ps) && AllClean(ps)
    ensures tab == Into(given, ps)
  {
    tab := given;
    var k := 0;
    ghost var listed := env.envl[..];
    while env.envl[k] != Null
      invariant k <= |ps| && env.envl[..] == listed
      invariant tab == Into(given, ps[..k])
      decreases |ps| - k
    {
      assert listed[k] == env.envl[k];
      var text, p := env.text[..], env.envl[k].pos;
      HereAt(text, ps, k);
      var name, value := ReadField(text, p, ps[k]);
      tab := tab[name := value];
      assert ps[..k + 1][..k] == ps[..k];
      k := k + 1;
    }
    assert listed[k] == env.envl[k];
    assert ps[..k] == ps;
  }

  datatype Answer = Refused | Absent | Present(value: string)

  /** The first string of the name. */
  function Find(ps: seq<Pair>, name: string): (r: Answer)
  {
    if ps == [] then Absent else if ps[0].name == name then Present(ps[0].value) else Find(ps[1..], name)
  }

  /** `procenv_index`: every read of the loop falls inside the block. */
  method ProcEnvIndex(env: Env, ghost ps: seq<Pair>, name: string) returns (r: Answer)
    requires Packed(env.envl[..], env.text[..], ps) && AllClean(ps)
    ensures r == if '=' in CStr(name) then Refused else Find(ps, name)
  {
    if '=' in CStr(name) {
      return Refused;
    }
    var k, len := 0, |name|;
    ghost var listed := env.envl[..];
    assert ps[k..] == ps;
    while env.envl[k] != Null
      invariant k <= |ps| && env.envl[..] == listed
      invariant Find(ps, name) == Find(ps[k..], name)
      decreases |ps| - k
    {
      assert listed[k] == env.envl[k];
      var text, p := env.text[..], env.envl[k].pos;
      HereAt(text, ps, k);
      MatchIs(name, text, p, ps[k]);
      if StrNEq(name, text, p) && text[p + len] == '=' {
        HereChars(text, p, ps[k]);
        NoNulBefore(text, p, ps[k]);
        EndIs(text, p + len + 1, p + len + 1 + |ps[k].value|);
        return Present(text[p + len + 1..StrEnd(text, p + len + 1)]);
      }
      assert ps[k..][1..] == ps[k + 1..];
      k := k + 1;
    }
    assert listed[k] == env.envl[k];
    return Absent;
  }

  // ---------------------------------------------------------------- round trips

  /** A Lua table has one field of a name. */
  predicate Distinct(ps: seq<Pair>) {
    forall i, j :: 0 <= i < j < |ps| ==> ps[i].name != ps[j].name
  }

  predicate NulFree(tab: seq<Field>) {
    forall k :: 0 <= k < |tab| ==> NUL !in tab[k].name && (tab[k].value.Str? ==> NUL !in tab[k].value.s)
  }

  predicate Named(ps: seq<Pair>, name: string) {
    exists k :: 0 <= k < |ps| && ps[k].name == name
  }

  lemma {:induction false} IntoKeys(ps: seq<Pair>, name: string)
    ensures name in Into(map[], ps) <==> Named(ps, name)
  {
    if ps != [] {
      var n := |ps| - 1;
      IntoKeys(ps[..n], name);
      if Named(ps[..n], name) {
        var k :| 0 <= k < n && ps[..n][k].name == name;
        assert ps[k].name == name;
      }
      if Named(ps, name) && ps[n].name != name {
        var k :| 0 <= k < |ps| && ps[k].name == name;
        assert ps[..n][k].name == name;
      }
    }
  }

  lemma {:induction false} IntoValue(ps: seq<Pair>, k: nat)
    requires Distinct(ps) && k < |ps|
    ensures ps[k].name in Into(map[], ps) && Into(map[], ps)[ps[k].name] == ps[k].value
  {
    var n := |ps| - 1;
    if k < n {
      IntoValue(ps[..n], k);
      assert ps[k].name != ps[n].name;
    }
  }

  lemma {:induction false} FindIs(ps: seq<Pair>, name: string)
    requires Distinct(ps)
    ensures Find(ps, name) == if name in Into(map[], ps) then Present(Into(map[], ps)[name]) else Absent
  {
    IntoKeys(ps, name);
    if Named(ps, name) {
      var k :| 0 <= k < |ps| && ps[k].name == name;
      FindFirst(ps, k);
      IntoValue(ps, k);
    } else {
      FindNone(ps, name);
    }
  }

  lemma {:induction false} FindNone(ps: seq<Pair>, name: string)
    requires !Named(ps, name)
    ensures Find(ps, name) == Absent
  {
    if ps != [] {
      assert ps[0].name != name;
      assert forall k :: 0 <= k < |ps| - 1 ==> ps[1..][k] == ps[k + 1];
      FindNone(ps[1..], name);
    }
  }

  lemma NulFreeWhole(tab: seq<Field>)
    requires Accepted(tab) && NulFree(tab)
    ensures Truncated(tab) == Whole(tab)
  {
    forall k | 0 <= k < |tab| ensures Truncated(tab)[k] == Whole(tab)[k] {
      assert !Bad(tab[k]);
      CStrWhole(tab[k].name);
      CStrWhole(tab[k].value.s);
    }
  }

  /** A field with a NUL is not given back: a name not at all, a value cut short. */
  lemma NulLost(tab: seq<Field>, k: nat)
    requires Accepted(tab) && Distinct(Whole(tab)) && k < |tab|
    requires NUL in tab[k].name || ((forall i :: 0 <= i < |tab| ==> NUL !in tab[i].name) && NUL in tab[k].value.s)
    ensures Find(Truncated(tab), tab[k].name) != Present(tab[k].value.s)
    ensures var m := Into(map[], Truncated(tab));
            !(tab[k].name in m && m[tab[k].name] == tab[k].value.s)
  {
    var ps := Truncated(tab);
    TruncatedClean(tab);
    if NUL in tab[k].name {
      assert forall i :: 0 <= i < |ps| ==> Clean(ps[i]);
      assert !Named(ps, tab[k].name);
      FindNone(ps, tab[k].name);
      IntoKeys(ps, tab[k].name);
    } else {
      forall i | 0 <= i < |tab| ensures ps[i].name == Whole(tab)[i].name {
        CStrWhole(tab[i].name);
      }
      assert forall i, j :: 0 <= i < j < |ps| ==> Whole(tab)[i].name != Whole(tab)[j].name;
      assert Distinct(ps);
      CStrWhole(tab[k].value.s);
      IntoValue(ps, k);
      FindFirst(ps, k);
    }
  }

  /** Some field loses something unless there is no NUL at all. */
  lemma SomeNul(tab: seq<Field>) returns (k: nat)
    requires Accepted(tab) && !NulFree(tab)
    ensures k < |tab|
    ensures NUL in tab[k].name || ((forall i :: 0 <= i < |tab| ==> NUL !in tab[i].name) && NUL in tab[k].value.s)
  {
    if i :| 0 <= i < |tab| && NUL in tab[i].name {
      k := i;
    } else {
      k :| 0 <= k < |tab| && tab[k].value.Str? && NUL in tab[k].value.s;
    }
  }

  /** Unpacking what was packed gives the table back, if and only if no string of it holds a NUL. */
  lemma RoundTrip(tab: seq<Field>)
    requires Accepted(tab) && Distinct(Whole(tab))
    ensures Into(map[], Truncated(tab)) == Into(map[], Whole(tab)) <==> NulFree(tab)
  {
    if NulFree(tab) {
      NulFreeWhole(tab);
    } else {
      var k := SomeNul(tab);
      NulLost(tab, k);
      IntoValue(Whole(tab), k);
    }
  }

  /** What indexing a packed table answers for a name that has no `=`. */
  ghost predicate AnswersAsTable(tab: seq<Field>)
    requires Accepted(tab)
  {
    var m := Into(map[], Whole(tab));
    forall name :: '=' !in CStr(name) ==>
      Find(Truncated(tab), name) == if name in m then Present(m[name]) else Absent
  }

  /** Indexing answers what the table held, for every name, if and only if no string of it holds a NUL. */
  lemma LookupIsTable(tab: seq<Field>)
    requires Accepted(tab) && Distinct(Whole(tab))
    ensures AnswersAsTable(tab) <==> NulFree(tab)
  {
    if NulFree(tab) {
      NulFreeWhole(tab);
      forall name | '=' !in CStr(name)
        ensures var m := Into(map[], Whole(tab));
                Find(Truncated(tab), name) == if name in m then Present(m[name]) else Absent
      {
        FindIs(Whole(tab), name);
      }
    } else {
      var k := SomeNul(tab);
      NulLost(tab, k);
      assert !Bad(tab[k]);
      IntoValue(Whole(tab), k);
      assert Whole(tab)[k].name == tab[k].name;
    }
  }

  /** A table that neither unpacking nor indexing gives back: `{ a = "x\0y" }`. */
  lemma CutShort() returns (tab: seq<Field>)
    ensures Accepted(tab) && Distinct(Whole(tab))
    ensures Into(map[], Truncated(tab)) != Into(map[], Whole(tab)) && !AnswersAsTable(tab)
  {
    var value := ['x', NUL, 'y'];
    tab := [Field("a", Str(value))];
    assert CStr("a") <= "a";
    assert !Bad(tab[0]);
    assert value[1] == NUL && NUL in tab[0].value.s;
    RoundTrip(tab);
    LookupIsTable(tab);
  }

  // ---------------------------------------------------------------- what it means for the table

  /** The block, field by field: each pointer is to `name=value` and its NUL, both cut at their first NUL,
      the strings follow each other without gaps, and the last ends the block. */
  lemma PackedMeans(envl: seq<Pointer>, text: string, tab: seq<Field>, k: nat)
    requires Accepted(tab) && Packed(envl, text, Truncated(tab)) && k <= |tab|
    ensures |envl| == |tab| + 1 && envl[|tab|] == Null
    ensures k < |tab| ==>
              && envl[k].At? && tab[k].value.Str?
              && var p, entry := envl[k].pos, CStr(tab[k].name) + "=" + CStr(tab[k].value.s) + [NUL];
                 && p + |entry| <= |text| && text[p..p + |entry|] == entry
                 && (k == 0 ==> p == 0)
                 && (if k + 1 < |tab| then envl[k + 1] == At(p + |entry|) else p + |entry| == |text|)
    ensures tab == [] ==> text == ""
  {
    var ps := Truncated(tab);
    if k < |tab| {
      assert !Bad(tab[k]);
      assert ps[k] == Pair(CStr(tab[k].name), CStr(tab[k].value.s));
      HereAt(text, ps, k);
      FlatNext(ps, k);
      assert ps[..0] == [] && ps[..|tab|] == ps;
    }
  }

  /** What unpacking into a table that has fields already leaves: of each name the value packed last, and of
      the other names what was there. */
  lemma {:induction false} IntoLast(given: map<string, string>, ps: seq<Pair>, k: nat)
    requires k < |ps| && forall j :: k < j < |ps| ==> ps[j].name != ps[k].name
    ensures ps[k].name in Into(given, ps) && Into(given, ps)[ps[k].name] == ps[k].value
  {
    if k < |ps| - 1 {
      IntoLast(given, ps[..|ps| - 1], k);
    }
  }

  lemma {:induction false} IntoOther(given: map<string, string>, ps: seq<Pair>, name: string)
    requires forall k :: 0 <= k < |ps| ==> ps[k].name != name
    ensures name in Into(given, ps) <==> name in given
    ensures name in given ==> Into(given, ps)[name] == given[name]
  {
    if ps != [] {
      IntoOther(given, ps[..|ps| - 1], name);
    }
  }

  /** The lookup finds the first string of a name. */
  lemma {:induction false} FindFirst(ps: seq<Pair>, k: nat)
    requires k < |ps| && forall j :: 0 <= j < k ==> ps[j].name != ps[k].name
    ensures Find(ps, ps[k].name) == Present(ps[k].value)
  {
    if k > 0 {
      assert ps[0].name != ps[k].name;
      FindFirst(ps[1..], k - 1);
    }
  }

  lemma TableMap(tab: seq<Field>)
    requires Accepted(tab) && forall i, j :: 0 <= i < j < |tab| ==> tab[i].name != tab[j].name
    ensures Distinct(Whole(tab))
    ensures forall k :: 0 <= k < |tab| ==>
              tab[k].value.Str? && tab[k].name in Into(map[], Whole(tab)) && Into(map[], Whole(tab))[tab[k].name] == tab[k].value.s
    ensures forall name :: name in Into(map[], Whole(tab)) ==> exists k :: 0 <= k < |tab| && tab[k].name == name
  {
    var ps := Whole(tab);
    assert forall k :: 0 <= k < |tab| ==> !Bad(tab[k]) && ps[k].name == tab[k].name && ps[k].value == tab[k].value.s;
    forall k | 0 <= k < |tab|
      ensures tab[k].name in Into(map[], ps) && Into(map[], ps)[tab[k].name] == tab[k].value.s
    {
      IntoValue(ps, k);
    }
    forall name | name in Into(map[], ps) ensures exists k :: 0 <= k < |tab| && tab[k].name == name {
      IntoKeys(ps, name);
      var k :| 0 <= k < |ps| && ps[k].name == name;
      assert tab[k].name == name;
    }
  }

  /** The round trip, on the fields of the table itself: unpacking gives every name its value and no other
      name, if and only if no name and no value holds a NUL. */
  lemma RoundTripMeans(tab: seq<Field>)
    requires Accepted(tab) && forall i, j :: 0 <= i < j < |tab| ==> tab[i].name != tab[j].name
    ensures forall k :: 0 <= k < |tab| ==> tab[k].value.Str?
    ensures var m := Into(map[], Truncated(tab));
            (&& (forall k :: 0 <= k < |tab| ==> tab[k].name in m && m[tab[k].name] == tab[k].value.s)
             && (forall name :: name in m ==> exists k :: 0 <= k < |tab| && tab[k].name == name))
            <==> (forall k :: 0 <= k < |tab| ==> NUL !in tab[k].name && NUL !in tab[k].value.s)
  {
    TableMap(tab);
    if forall k :: 0 <= k < |tab| ==> NUL !in tab[k].name && NUL !in tab[k].value.s {
      NulFreeWhole(tab);
    } else {
      var k := SomeNul(tab);
      NulLost(tab, k);
    }
  }

  /** And the lookup: every name of the table answers its value, and any other is absent, if and only if no
      name and no value holds a NUL. */
  lemma LookupMeans(tab: seq<Field>)
    requires Accepted(tab) && forall i, j :: 0 <= i < j < |tab| ==> tab[i].name != tab[j].name
    ensures forall k :: 0 <= k < |tab| ==> tab[k].value.Str?
    ensures (&& (forall k :: 0 <= k < |tab| ==> Find(Truncated(tab), tab[k].name) == Present(tab[k].value.s))
             && (forall name :: '=' !in CStr(name) && (forall k :: 0 <= k < |tab| ==> tab[k].name != name) ==>
                   Find(Truncated(tab), name) == Absent))
            <==> (forall k :: 0 <= k < |tab| ==> NUL !in tab[k].name && NUL !in tab[k].value.s)
  {
    TableMap(tab);
    if forall k :: 0 <= k < |tab| ==> NUL !in tab[k].name && NUL !in tab[k].value.s {
      NulFreeWhole(tab);
      forall name ensures (forall k :: 0 <= k < |tab| ==> tab[k].name != name) ==> Find(Truncated(tab), name) == Absent {
        FindIs(Whole(tab), name);
      }
      forall k | 0 <= k < |tab| ensures Find(Truncated(tab), tab[k].name) == Present(tab[k].value.s) {
        FindIs(Whole(tab), tab[k].name);
      }
    } else {
      var k := SomeNul(tab);
      NulLost(tab, k);
    }
  }
}
