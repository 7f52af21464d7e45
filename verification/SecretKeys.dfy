/** Rotating the key that seals stored secrets: which keys decryption still finds. */
module SecretKeys {
  import opened Lists
  import opened Options
  import opened Texts

  /** The three settings; "" stands for a missing data key. `blank` is Python's notion of
      white space. */
  datatype Config = Config(dataKey: string, previous: string, signing: string, blank: char -> bool)

  /** A ciphertext: only the material that sealed it opens it (authenticated encryption, and
      a hash of the material that never collides). */
  datatype Sealed = Sealed(material: string, plain: string)

  // ----- the list of previous keys --------------------------------------------------------

  /** `split(",")`. */
  function Split(s: string): (parts: seq<string>)
    ensures parts != []
    decreases |s|
  {
    var k := Texts.Find(s, ',');
    if k == |s| then [s] else [s[..k]] + Split(s[k + 1..])
  }

  function StripLeft(s: string, blank: char -> bool): string {
    if s != "" && blank(s[0]) then StripLeft(s[1..], blank) else s
  }

  function StripRight(s: string, blank: char -> bool): string {
    if s != "" && blank(s[|s| - 1]) then StripRight(s[..|s| - 1], blank) else s
  }

  function Strip(s: string, blank: char -> bool): string { StripRight(StripLeft(s, blank), blank) }

  /** The stripped entries that are not empty. */
  function Entries(parts: seq<string>, blank: char -> bool): seq<string> {
    if parts == [] then []
    else
      var last := Strip(parts[|parts| - 1], blank);
      Entries(parts[..|parts| - 1], blank) + if last == "" then [] else [last]
  }

  function PreviousKeys(cfg: Config): seq<string> { Entries(Split(cfg.previous), cfg.blank) }

  /** `_key_materials`: the primary key, the previous ones, and the signing key as the last
      resort, each once. */
  function KeyMaterials(cfg: Config): seq<string> {
    Firsts([if cfg.dataKey != "" then cfg.dataKey else cfg.signing] + PreviousKeys(cfg) +
           if cfg.dataKey != "" then [cfg.signing] else [])
  }

  /** Such a key survives in a comma-separated list. */
  predicate Listable(key: string, blank: char -> bool) {
    key != "" && ',' !in key && !blank(key[0]) && !blank(key[|key| - 1])
  }

  function Comma(a: string, b: string): string { a + "," + b }

  lemma CommaIsAssociative(a: string, b: string, c: string)
    ensures Comma(Comma(a, b), c) == Comma(a, Comma(b, c))
  {
  }

  lemma SplitFirst(a: string, rest: string)
    requires ',' !in a
    ensures Split(Comma(a, rest)) == [a] + Split(rest)
  {
    FindIsFirst(a, ',', rest);
    var s := Comma(a, rest);
    assert s[..|a|] == a && s[|a| + 1..] == rest;
  }

  lemma SplitNone(a: string)
    requires ',' !in a
    ensures Split(a) == [a]
  {
    FindNothing(a, ',');
  }

  lemma FirstComma(a: string) returns (first: string, rest: string)
    requires ',' in a
    ensures a == Comma(first, rest) && ',' !in first && |rest| < |a|
  {
    var k := Texts.Find(a, ',');
    assert a[..|a|] == a;
    first, rest := a[..k], a[k + 1..];
  }

  lemma Regroup(first: string, x: seq<string>, y: seq<string>)
    ensures ([first] + x) + y == [first] + (x + y)
  {
  }

  lemma {:induction false} SplitConcat(a: string, b: string)
    ensures Split(Comma(a, b)) == Split(a) + Split(b)
    decreases |a|
  {
    if ',' !in a {
      SplitFirst(a, b);
      SplitNone(a);
    } else {
      var first, rest := FirstComma(a);
      CommaIsAssociative(first, rest, b);
      SplitFirst(first, Comma(rest, b));
      SplitFirst(first, rest);
      SplitConcat(rest, b);
      Regroup(first, Split(rest), Split(b));
    }
  }

  lemma {:induction false} PartsHaveNoComma(s: string, i: nat)
    requires i < |Split(s)|
    ensures ',' !in Split(s)[i]
    decreases |s|
  {
    var k := Texts.Find(s, ',');
    if k < |s| && i > 0 {
      PartsHaveNoComma(s[k + 1..], i - 1);
    }
  }

  lemma {:induction false} StripLeftIsClean(s: string, blank: char -> bool)
    ensures var t := StripLeft(s, blank); (t != "" ==> !blank(t[0])) && forall c | c in t :: c in s
  {
    if s != "" && blank(s[0]) {
      StripLeftIsClean(s[1..], blank);
    }
  }

  lemma {:induction false} StripRightIsClean(s: string, blank: char -> bool)
    ensures var t := StripRight(s, blank);
            t <= s && (t != "" ==> !blank(t[|t| - 1])) && forall c | c in t :: c in s
  {
    if s != "" && blank(s[|s| - 1]) {
      StripRightIsClean(s[..|s| - 1], blank);
    }
  }

  lemma StripIsClean(s: string, blank: char -> bool)
    ensures var t := Strip(s, blank); t != "" ==> !blank(t[0]) && !blank(t[|t| - 1])
    ensures forall c | c in Strip(s, blank) :: c in s
  {
    StripLeftIsClean(s, blank);
    StripRightIsClean(StripLeft(s, blank), blank);
  }

  lemma {:induction false} EntriesIff(parts: seq<string>, blank: char -> bool, key: string)
    ensures key in Entries(parts, blank) <==> key != "" && exists i | 0 <= i < |parts| :: Strip(parts[i], blank) == key
  {
    if parts != [] {
      var n := |parts| - 1;
      EntriesIff(parts[..n], blank, key);
      assert forall i | 0 <= i < n :: parts[..n][i] == parts[i];
    }
  }

  /** Whatever the setting holds, only listable keys are ever read from it. */
  lemma OnlyListableKeysAreRead(cfg: Config, key: string)
    requires key in PreviousKeys(cfg)
    ensures Listable(key, cfg.blank)
  {
    var parts := Split(cfg.previous);
    EntriesIff(parts, cfg.blank, key);
    var i :| 0 <= i < |parts| && Strip(parts[i], cfg.blank) == key;
    PartsHaveNoComma(cfg.previous, i);
    StripIsClean(parts[i], cfg.blank);
  }

  /** Keys written into the setting with commas between them. */
  function Listed(keys: seq<string>): string {
    if keys == [] then ""
    else if |keys| == 1 then keys[0]
    else Comma(keys[0], Listed(keys[1..]))
  }

  lemma {:induction false} SplitListed(keys: seq<string>, key: string)
    requires key in keys && ',' !in key
    ensures key in Split(Listed(keys))
  {
    SplitNone(key);
    if |keys| > 1 {
      assert keys == [keys[0]] + keys[1..];
      SplitConcat(keys[0], Listed(keys[1..]));
      if key != keys[0] {
        SplitListed(keys[1..], key);
      }
    }
  }

  /** A key put into the list is found there exactly when it is not empty and has no comma and
      no surrounding blanks; what the other entries look like does not matter. */
  lemma ListedKeyIsFoundIff(cfg: Config, keys: seq<string>, key: string)
    requires cfg.previous == Listed(keys) && key in keys
    ensures key in PreviousKeys(cfg) <==> Listable(key, cfg.blank)
  {
    if Listable(key, cfg.blank) {
      SplitListed(keys, key);
      var parts := Split(cfg.previous);
      var i :| 0 <= i < |parts| && parts[i] == key;
      assert Strip(key, cfg.blank) == key;
      EntriesIff(parts, cfg.blank, key);
    }
    if key in PreviousKeys(cfg) {
      OnlyListableKeysAreRead(cfg, key);
    }
  }

  lemma MaterialsIff(cfg: Config, key: string)
    ensures key in KeyMaterials(cfg) <==> (key == cfg.dataKey && key != "") || key == cfg.signing || key in PreviousKeys(cfg)
  {
    var all := [if cfg.dataKey != "" then cfg.dataKey else cfg.signing] + PreviousKeys(cfg) +
               if cfg.dataKey != "" then [cfg.signing] else [];
    FirstsKeepsMembers(all, key);
  }

  // ----- sealing and opening -----------------------------------------------------------------

  datatype Encrypted = NothingToStore | MissingDataKey | Stored(sealed: Sealed)

  /** `encrypt_secret`. */
  function EncryptSecret(cfg: Config, plain: string): Encrypted {
    if plain == "" then NothingToStore
    else if cfg.dataKey == "" then MissingDataKey
    else Stored(Sealed(cfg.dataKey, plain))
  }

  /** A text is stored exactly where there is one and the data key is set, and then under
      that key; with a text and no data key the setting is named as missing. */
  lemma StoredIff(cfg: Config, plain: string)
    ensures EncryptSecret(cfg, plain).Stored? <==> plain != "" && cfg.dataKey != ""
    ensures plain != "" && cfg.dataKey != "" ==> EncryptSecret(cfg, plain).sealed == Sealed(cfg.dataKey, plain)
    ensures EncryptSecret(cfg, plain).MissingDataKey? <==> plain != "" && cfg.dataKey == ""
  {
  }

  /** The primary key comes first: the data key, or the signing key where none is set. */
  lemma PrimaryComesFirst(cfg: Config)
    ensures KeyMaterials(cfg) != [] && KeyMaterials(cfg)[0] == if cfg.dataKey != "" then cfg.dataKey else cfg.signing
  {
    var primary := if cfg.dataKey != "" then cfg.dataKey else cfg.signing;
    var all := [primary] + PreviousKeys(cfg) + if cfg.dataKey != "" then [cfg.signing] else [];
    FirstStaysFirst(all);
  }

  lemma {:induction false} FirstStaysFirst(list: seq<string>)
    requires list != []
    ensures Firsts(list) != [] && Firsts(list)[0] == list[0]
  {
    if |list| > 1 {
      FirstStaysFirst(list[..|list| - 1]);
    }
  }

  function Open(material: string, c: Sealed): Option<string> {
    if c.material == material then Some(c.plain) else None
  }

  /** Building the list in place, then dropping repetitions. */
  method BuildKeyMaterials(cfg: Config) returns (materials: seq<string>)
    ensures materials == KeyMaterials(cfg)
  {
    var values := [if cfg.dataKey != "" then cfg.dataKey else cfg.signing];
    ghost var primary := values;
    var parts := Split(cfg.previous);
    for i := 0 to |parts|
      invariant values == primary + Entries(parts[..i], cfg.blank)
    {
      assert parts[..i + 1][..i] == parts[..i];
      if Strip(parts[i], cfg.blank) != "" {
        values := values + [Strip(parts[i], cfg.blank)];
      }
    }
    assert parts[..|parts|] == parts;
    if cfg.dataKey != "" {
      values := values + [cfg.signing];
    }
    assert values + [] == values;
    materials := Firsts(values);
  }

  /** `decrypt_secret`: the original exactly when the sealing key is still among the
      materials, and nothing otherwise. */
  method DecryptSecret(cfg: Config, c: Sealed) returns (plain: Option<string>)
    ensures plain == if c.material in KeyMaterials(cfg) then Some(c.plain) else None
  {
    var materials := BuildKeyMaterials(cfg);
    for i := 0 to |materials|
      invariant forall j | 0 <= j < i :: materials[j] != c.material
    {
      if Open(materials[i], c).Some? {
        return Open(materials[i], c);
      }
    }
    return None;
  }

  // ----- rotations ---------------------------------------------------------------------------------

  /** The settings in force and everything stored, by name. */
  datatype State = State(cfg: Config, secrets: map<string, Sealed>, originals: map<string, string>)

  datatype Step = Rotate(cfg: Config) | Store(name: string, plain: string)

  function Do(s: State, step: Step): State {
    match step
    case Rotate(cfg) => s.(cfg := cfg)
    case Store(name, plain) =>
      match EncryptSecret(s.cfg, plain)
      case Stored(sealed) => s.(secrets := s.secrets[name := sealed], originals := s.originals[name := plain])
      case _ => s
  }

  /** A rotation keeps a key: as the data key, as the signing key, or as a listable entry of
      the previous keys. */
  predicate Keeps(cfg: Config, key: string) {
    || (key != "" && key == cfg.dataKey)
    || key == cfg.signing
    || (Listable(key, cfg.blank) && key in Split(cfg.previous))
  }

  /** Every rotation keeps every key some stored secret still needs. */
  predicate Careful(states: seq<State>, steps: seq<Step>)
    requires |states| == |steps| + 1
  {
    forall i, name | 0 <= i < |steps| && steps[i].Rotate? && name in states[i].secrets ::
      Keeps(steps[i].cfg, states[i].secrets[name].material)
  }

  ghost predicate Run(states: seq<State>, steps: seq<Step>) {
    && |states| == |steps| + 1
    && forall i | 0 <= i < |steps| :: states[i + 1] == Do(states[i], steps[i])
  }

  /** Every secret opens to its original under the settings in force. */
  predicate Readable(s: State) {
    s.secrets.Keys == s.originals.Keys &&
    forall name | name in s.secrets :: s.secrets[name].material in KeyMaterials(s.cfg) && s.secrets[name].plain == s.originals[name]
  }

  lemma KeptKeyIsFound(cfg: Config, key: string)
    requires Keeps(cfg, key)
    ensures key in KeyMaterials(cfg)
  {
    MaterialsIff(cfg, key);
    if Listable(key, cfg.blank) && key in Split(cfg.previous) {
      var parts := Split(cfg.previous);
      var i :| 0 <= i < |parts| && parts[i] == key;
      assert Strip(key, cfg.blank) == key;
      EntriesIff(parts, cfg.blank, key);
    }
  }

  lemma StepStaysReadable(s: State, step: Step)
    requires Readable(s)
    requires step.Rotate? ==> forall name | name in s.secrets :: Keeps(step.cfg, s.secrets[name].material)
    ensures Readable(Do(s, step))
  {
    match step
    case Rotate(cfg) =>
      forall name | name in s.secrets ensures s.secrets[name].material in KeyMaterials(cfg) {
        KeptKeyIsFound(cfg, s.secrets[name].material);
      }
    case Store(name, plain) =>
      MaterialsIff(s.cfg, s.cfg.dataKey);
  }

  /** Through any run of stores and careful rotations every stored secret opens to the text
      last stored under its name. */
  lemma {:induction false} SecretsSurviveRotations(states: seq<State>, steps: seq<Step>, n: nat)
    requires Run(states, steps) && Careful(states, steps) && Readable(states[0]) && n < |states|
    ensures Readable(states[n])
  {
    if n > 0 {
      SecretsSurviveRotations(states, steps, n - 1);
      StepStaysReadable(states[n - 1], steps[n - 1]);
    }
  }

  /** The step stores something under this name: a text, with a data key set. */
  predicate Stores(s: State, step: Step, name: string) {
    step.Store? && step.name == name && step.plain != "" && s.cfg.dataKey != ""
  }

  /** Over any run, careful or not, a secret is sealed under the data key that was in force
      when its name was last stored, and that key was set: never under the signing key unless
      the two settings are equal. Without a store it is the one the run began with. */
  lemma StoresIsDone(s: State, step: Step, name: string)
    ensures Stores(s, step, name) ==> name in Do(s, step).secrets && Do(s, step).secrets[name] == Sealed(s.cfg.dataKey, step.plain)
    ensures !Stores(s, step, name) ==>
            (name in Do(s, step).secrets <==> name in s.secrets) && (name in s.secrets ==> Do(s, step).secrets[name] == s.secrets[name])
  {
    if step.Store? {
      StoredIff(s.cfg, step.plain);
    }
  }

  /** And nothing once stored is lost. */
  lemma {:induction false} StoredSecretsStay(states: seq<State>, steps: seq<Step>, i: nat, n: nat, name: string)
    requires Run(states, steps) && i < n < |states| && Stores(states[i], steps[i], name)
    ensures name in states[n].secrets
  {
    if n == i + 1 {
      StoresIsDone(states[i], steps[i], name);
    } else {
      StoredSecretsStay(states, steps, i, n - 1, name);
      StoresIsDone(states[n - 1], steps[n - 1], name);
    }
  }

  lemma {:induction false} NewSecretsUseTheDataKey(states: seq<State>, steps: seq<Step>, n: nat, name: string) returns (i: Option<nat>)
    requires Run(states, steps) && n < |states| && name in states[n].secrets
    ensures i.Some? ==>
              && i.value < n && Stores(states[i.value], steps[i.value], name) && states[i.value].cfg.dataKey != ""
              && states[n].secrets[name] == Sealed(states[i.value].cfg.dataKey, steps[i.value].plain)
              && forall j | i.value < j < n :: !Stores(states[j], steps[j], name)
    ensures i.None? ==>
              && name in states[0].secrets && states[n].secrets[name] == states[0].secrets[name]
              && forall j | 0 <= j < n :: !Stores(states[j], steps[j], name)
  {
    if n == 0 {
      i := None;
    } else if Stores(states[n - 1], steps[n - 1], name) {
      i := Some(n - 1);
      StoresIsDone(states[n - 1], steps[n - 1], name);
    } else {
      StoresIsDone(states[n - 1], steps[n - 1], name);
      i := NewSecretsUseTheDataKey(states, steps, n - 1, name);
    }
  }

  /** Moving the old data key into the list under a new one keeps its secrets readable exactly
      when the old key is listable (or is also the new data key or the signing key). */
  lemma RotationIff(old': Config, new': Config, plain: string)
    requires old'.dataKey != "" && new' == old'.(dataKey := new'.dataKey, previous := Comma(old'.dataKey, old'.previous))
    requires old'.dataKey != new'.dataKey && old'.dataKey != old'.signing
    ensures Sealed(old'.dataKey, plain).material in KeyMaterials(new') <==> Listable(old'.dataKey, old'.blank)
  {
    var key := old'.dataKey;
    MaterialsIff(new', key);
    if Listable(key, old'.blank) {
      SplitConcat(key, old'.previous);
      SplitNone(key);
      assert Split(new'.previous)[0] == key;
      KeptKeyIsFound(new', key);
    }
    if key in PreviousKeys(new') {
      OnlyListableKeysAreRead(new', key);
    }
  }
}
