/** ddgen/dbc2sldd.py: from a loaded CAN matrix to the bus entries of a
    Simulink Data Dictionary and the enumerations they refer to.

    Every message that passes the filters becomes a bus named
    `CAN_MSG_<message>_t` whose elements are its signals, sorted by name
    and preceded by the availability flag `IsMsgAvl`. A signal with a value
    table gets the data type `Enum: <name>`, where the name belongs to the
    first registered table with the same contents or is derived from the
    signal's own name; every enumeration used is exported once, with its
    labels rewritten into C-compatible names. */
module Dbc2Sldd {
  import opened Common
  import opened CanMatrix
  import opened SlddGen

  // ---------------------------------------------------------------------
  // Data type proposal (propose_data_type)

  /** The scale of a signal; a missing factor counts as 1.0. */
  function Factor(s: Signal): real {
    s.factor.GetOr(1.0)
  }

  /** The offset of a signal; a missing offset counts as 0.0. */
  function Offset(s: Signal): real {
    s.offset.GetOr(0.0)
  }

  /** A signal whose physical value is not its raw value needs a
      floating-point type. */
  predicate RequiresFloat(s: Signal) {
    Factor(s) != 1.0 || Offset(s) != 0.0
  }

  /** The name of the standard integer type of `width` bits. */
  function IntegerTypeName(signed: bool, width: nat): string {
    (if signed then "int" else "uint") + NatToString(width)
  }

  /** The integer widths Simulink offers, narrowest first. */
  const WIDTHS: seq<nat> := [8, 16, 32, 64]

  function ProposeDataType(s: Signal): (r: string)
    ensures r == "boolean" <==> s.size == 1
    ensures s.size != 1 && RequiresFloat(s) ==> (r == "single" <==> s.size <= 32) && (r == "double" <==> s.size > 32)
    ensures s.size != 1 && !RequiresFloat(s) ==> r != "single" && r != "double"
    ensures !StartsWith(r, "Enum: ")
  {
    // No candidate starts with the `E` of `Enum: `.
    if s.size == 1 then
      assert "boolean"[0] != "Enum: "[0];
      "boolean"
    else if RequiresFloat(s) then
      if s.size <= 32 then
        assert "single"[0] != "Enum: "[0];
        "single"
      else
        assert "double"[0] != "Enum: "[0];
        "double"
    else if s.isSigned then
      assert "int8"[0] == "int16"[0] == "int32"[0] == "int64"[0] != "Enum: "[0];
      if s.size <= 8 then "int8"
      else if s.size <= 16 then "int16"
      else if s.size <= 32 then "int32"
      else "int64"
    else
      assert "uint8"[0] == "uint16"[0] == "uint32"[0] == "uint64"[0] != "Enum: "[0];
      if s.size <= 8 then "uint8"
      else if s.size <= 16 then "uint16"
      else if s.size <= 32 then "uint32"
      else "uint64"
  }

  /** A signal that needs neither a boolean nor a floating-point type gets
      the narrowest integer type of its signedness that holds all its bits,
      and the 64-bit one when none does. */
  lemma IntegerTypeIsNarrowestFit(s: Signal)
    requires s.size != 1 && !RequiresFloat(s)
    ensures forall k | 0 <= k < |WIDTHS| ::
      ProposeDataType(s) == IntegerTypeName(s.isSigned, WIDTHS[k])
      <==> (k == |WIDTHS| - 1 || s.size <= WIDTHS[k]) && (k == 0 || s.size > WIDTHS[k - 1])
  {
    assert NatToString(8) == "8" && NatToString(16) == "16";
    assert NatToString(32) == "32" && NatToString(64) == "64";
    var sign := if s.isSigned then "int" else "uint";
    assert IntegerTypeName(s.isSigned, 8) == sign + "8";
    assert IntegerTypeName(s.isSigned, 16) == sign + "16";
    assert IntegerTypeName(s.isSigned, 32) == sign + "32";
    assert IntegerTypeName(s.isSigned, 64) == sign + "64";
    if s.isSigned {
      assert sign + "8" == "int8" && sign + "16" == "int16" && sign + "32" == "int32" && sign + "64" == "int64";
      if s.size <= 8 {
        assert ProposeDataType(s) == "int8";
      } else if s.size <= 16 {
        assert ProposeDataType(s) == "int16";
      } else if s.size <= 32 {
        assert ProposeDataType(s) == "int32";
      } else {
        assert ProposeDataType(s) == "int64";
      }
    } else {
      assert sign + "8" == "uint8" && sign + "16" == "uint16" && sign + "32" == "uint32" && sign + "64" == "uint64";
      if s.size <= 8 {
        assert ProposeDataType(s) == "uint8";
      } else if s.size <= 16 {
        assert ProposeDataType(s) == "uint16";
      } else if s.size <= 32 {
        assert ProposeDataType(s) == "uint32";
      } else {
        assert ProposeDataType(s) == "uint64";
      }
    }
  }

  // ---------------------------------------------------------------------
  // Enumeration names (enum_name_proc)

  /** A name ends in `_enum` and, when the configuration has a prefix,
      starts with it; every name is mapped to one that does by adding
      what is missing. */
  function EnumNameProc(name: string, prefix: string): (r: string)
    ensures EndsWith(r, "_enum")
    ensures prefix != "" ==> StartsWith(r, prefix)
    ensures r == name || r == name + "_enum" || r == prefix + name || r == prefix + name + "_enum"
    ensures r == name <==> EndsWith(name, "_enum") && (prefix == "" || StartsWith(name, prefix))
  {
    var withSuffix := if EndsWith(name, "_enum") then name else name + "_enum";
    if prefix != "" && !StartsWith(withSuffix, prefix) then
      assert (prefix + withSuffix)[|prefix + withSuffix| - 5..] == withSuffix[|withSuffix| - 5..];
      assert (prefix + withSuffix)[..|prefix|] == prefix;
      prefix + withSuffix
    else
      withSuffix
  }

  /** A name is canonical when `enum_name_proc` leaves it as it is. */
  predicate Canonical(name: string, prefix: string) {
    EnumNameProc(name, prefix) == name
  }

  lemma EnumNameProcIdempotent(name: string, prefix: string)
    ensures Canonical(EnumNameProc(name, prefix), prefix)
  {
  }

  // ---------------------------------------------------------------------
  // C identifiers (make_c_compatible) and label rewriting

  predicate IsIdentChar(c: char) {
    ('a' <= c <= 'z') || ('A' <= c <= 'Z') || ('0' <= c <= '9') || c == '_'
  }

  /** Holds for strings made only of `[A-Za-z0-9_]` that do not start with
      a digit (the empty string included). */
  predicate IsCCompatible(s: string) {
    (forall i | 0 <= i < |s| :: IsIdentChar(s[i])) && (|s| > 0 ==> !IsDigit(s[0]))
  }

  /** `re.sub(r'[^a-zA-Z0-9_]', '_', s)`. */
  function SubstituteNonIdent(s: string): (r: string)
    ensures |r| == |s|
    ensures forall i | 0 <= i < |s| :: IsIdentChar(r[i]) && (IsIdentChar(s[i]) ==> r[i] == s[i])
    ensures forall i | 0 <= i < |s| :: !IsIdentChar(s[i]) ==> r[i] == '_'
  {
    seq(|s|, i requires 0 <= i < |s| => if IsIdentChar(s[i]) then s[i] else '_')
  }

  function MakeCCompatible(name: string): (r: string)
    ensures IsCCompatible(r)
    ensures IsCCompatible(name) ==> r == name
    ensures r == SubstituteNonIdent(name) || r == "E_" + SubstituteNonIdent(name)
    ensures r == "E_" + SubstituteNonIdent(name) <==> |name| > 0 && IsDigit(name[0])
  {
    var replaced := SubstituteNonIdent(name);
    if |replaced| > 0 && IsDigit(replaced[0]) then "E_" + replaced
    else
      assert IsCCompatible(name) ==> replaced == name;
      replaced
  }

  const PLACEHOLDER := "Description for the value"

  /** A label that is missing, all whitespace, or a "Description for the
      value" placeholder is replaced by a name built from its code. The
      empty label is not: `v == ''` is tested only under `v and`, where it
      cannot hold. */
  predicate NeedsFallback(v: Label) {
    v.None? || (v.value != "" && (IsSpace(v.value) || StartsWith(v.value, PLACEHOLDER)))
  }

  /** The label exported for `code`, as the post-processing loop rewrites it. */
  function ExportLabel(code: int, v: Label): (r: string)
    ensures IsCCompatible(r)
  {
    var v1 := if NeedsFallback(v) then "VALUE_" + IntToString(code) else v.value;
    MakeCCompatible(v1)
  }

  predicate PlaceholderOrSpace(s: string) {
    IsSpace(s) || StartsWith(s, PLACEHOLDER)
  }

  /** Neither an all-whitespace string nor the placeholder is C-compatible:
      both contain a space. */
  lemma PlaceholderOrSpaceNotCompatible(s: string)
    ensures PlaceholderOrSpace(s) ==> !IsCCompatible(s)
  {
    if StartsWith(s, PLACEHOLDER) {
      assert s[11] == PLACEHOLDER[11] == ' ';
    }
    if IsSpace(s) {
      assert IsSpaceChar(s[0]);
    }
  }

  /** A label that is already C-compatible is exported as it is; a
      missing, blank or placeholder label becomes `VALUE_<code>` (with the
      minus sign of a negative code turned into `_`); the empty label, and
      only it, is exported empty. */
  lemma ExportLabelProperties(code: int, v: Label)
    ensures v.Some? && IsCCompatible(v.value) ==> ExportLabel(code, v) == v.value
    ensures NeedsFallback(v) && code >= 0 ==> ExportLabel(code, v) == "VALUE_" + NatToString(code)
    ensures NeedsFallback(v) && code < 0 ==> ExportLabel(code, v) == "VALUE__" + NatToString(-code)
    ensures ExportLabel(code, v) == "" <==> v == Some("")
  {
    PlaceholderOrSpaceNotCompatible(v.GetOr(""));
    if NeedsFallback(v) {
      var fallback := "VALUE_" + IntToString(code);
      if code >= 0 {
        assert IsCCompatible(fallback);
      } else {
        assert SubstituteNonIdent(fallback) == "VALUE__" + NatToString(-code);
      }
    }
  }

  /** An exported table: the same codes, every label rewritten. */
  function SanitizedTable(t: ValueTable): (r: ValueTable)
    ensures r.Keys == t.Keys
    ensures forall k | k in r :: r[k].Some? && IsCCompatible(r[k].value)
  {
    map k | k in t :: Some(ExportLabel(k, t[k]))
  }

  /** Labels that are already C-compatible survive the rewriting. */
  lemma SanitizedTableKeepsCompatible(t: ValueTable)
    ensures forall k | k in t && t[k].Some? && IsCCompatible(t[k].value) :: SanitizedTable(t)[k] == t[k]
  {
    forall k | k in t && t[k].Some? && IsCCompatible(t[k].value) ensures SanitizedTable(t)[k] == t[k] {
      ExportLabelProperties(k, t[k]);
    }
  }

  /** Rewriting an exported table a second time changes nothing: the same
      table reached under two export entries ends up as if rewritten once. */
  lemma SanitizeIdempotent(t: ValueTable)
    ensures SanitizedTable(SanitizedTable(t)) == SanitizedTable(t)
  {
    SanitizedTableKeepsCompatible(SanitizedTable(t));
  }

  /** The table part-way through the rewriting loop: the codes in
      `remaining` still carry their original labels. */
  function PartlySanitized(t: ValueTable, remaining: set<int>): ValueTable {
    map k | k in t :: if k in remaining then t[k] else Some(ExportLabel(k, t[k]))
  }

  lemma PartlySanitizedStep(t: ValueTable, remaining: set<int>, k: int)
    requires k in remaining && k in t
    ensures PartlySanitized(t, remaining - {k}) == PartlySanitized(t, remaining)[k := Some(ExportLabel(k, t[k]))]
  {
  }

  /** A set with no element is empty; a non-empty one therefore has one. */
  lemma NoElementEmpty(s: set<int>)
    ensures (forall x :: x !in s) ==> s == {}
  {
    if forall x :: x !in s {
      assert forall x :: x in s <==> x in {};
    }
  }

  /** The post-processing loop over the entries of one exported table. */
  method SanitizeTable(t: ValueTable) returns (r: ValueTable)
    ensures r == SanitizedTable(t)
  {
    r := t;
    var remaining := t.Keys;
    while remaining != {}
      invariant remaining <= t.Keys
      invariant r == PartlySanitized(t, remaining)
      decreases |remaining|
    {
      NoElementEmpty(remaining);
      var k :| k in remaining;
      var v := r[k];
      var newV := ExportLabel(k, v);
      PartlySanitizedStep(t, remaining, k);
      if Some(newV) != v {
        r := r[k := Some(newV)];
      }
      remaining := remaining - {k};
    }
  }

  // ---------------------------------------------------------------------
  // The registry of named tables (db_enums) and the export list

  /** An insertion-ordered dictionary from names to tables. */
  type Registry = seq<(string, ValueTable)>

  function Names(reg: Registry): (r: seq<string>)
    ensures |r| == |reg|
  {
    if reg == [] then [] else [reg[0].0] + Names(reg[1..])
  }

  lemma {:induction false} NamesAt(reg: Registry, i: nat)
    requires i < |reg|
    ensures Names(reg)[i] == reg[i].0
  {
    if i > 0 { NamesAt(reg[1..], i - 1); }
  }

  lemma {:induction false} NamesAppend(a: Registry, b: Registry)
    ensures Names(a + b) == Names(a) + Names(b)
  {
    if a != [] {
      NamesAppend(a[1..], b);
      assert (a + b)[1..] == a[1..] + b;
      assert (a + b)[0] == a[0];
      calc {
        Names(a + b);
        [a[0].0] + Names(a[1..] + b);
        [a[0].0] + (Names(a[1..]) + Names(b));
        ([a[0].0] + Names(a[1..])) + Names(b);
      }
    } else {
      assert a + b == b;
    }
  }

  /** A name in the list belongs to some entry. */
  lemma {:induction false} NamesHas(reg: Registry, n: string)
    requires n in Names(reg)
    ensures exists i | 0 <= i < |reg| :: reg[i].0 == n
  {
    if reg[0].0 != n {
      NamesHas(reg[1..], n);
      var i :| 0 <= i < |reg[1..]| && reg[1..][i].0 == n;
      assert reg[i + 1].0 == n;
    }
  }

  predicate NoDup(s: seq<string>) {
    forall i, j | 0 <= i < j < |s| :: s[i] != s[j]
  }

  predicate UniqueNames(reg: Registry) {
    NoDup(Names(reg))
  }

  lemma NoDupCons(a: string, s: seq<string>)
    ensures NoDup([a] + s) <==> a !in s && NoDup(s)
  {
    var t := [a] + s;
    if NoDup(t) {
      forall i, j | 0 <= i < j < |s| ensures s[i] != s[j] {
        assert t[i + 1] == s[i] && t[j + 1] == s[j];
      }
      forall k | 0 <= k < |s| ensures s[k] != a {
        assert t[k + 1] == s[k] && t[0] == a;
      }
    }
    if a !in s && NoDup(s) {
      forall i, j | 0 <= i < j < |t| ensures t[i] != t[j] {
        if i == 0 {
          assert t[j] == s[j - 1];
        } else {
          assert t[i] == s[i - 1] && t[j] == s[j - 1];
        }
      }
    }
  }

  lemma NoDupSnoc(s: seq<string>, a: string)
    requires NoDup(s) && a !in s
    ensures NoDup(s + [a])
  {
    var t := s + [a];
    forall i, j | 0 <= i < j < |t| ensures t[i] != t[j] {
      if j == |s| {
        assert t[i] == s[i];
      } else {
        assert t[i] == s[i] && t[j] == s[j];
      }
    }
  }

  lemma NoDupSnocIf(s: seq<string>, a: string)
    requires a !in s
    ensures NoDup(s) ==> NoDup(s + [a])
  {
    if NoDup(s) { NoDupSnoc(s, a); }
  }

  /** `reg.get(name)`. */
  function Lookup(reg: Registry, name: string): (r: Option<ValueTable>)
    ensures r.Some? <==> name in Names(reg)
  {
    if reg == [] then None
    else if reg[0].0 == name then Some(reg[0].1)
    else Lookup(reg[1..], name)
  }

  /** `reg[name] = t`: an existing name keeps its place, a new one goes last. */
  function Put(reg: Registry, name: string, t: ValueTable): (r: Registry)
    ensures name in Names(reg) ==> Names(r) == Names(reg)
    ensures name !in Names(reg) ==> Names(r) == Names(reg) + [name]
  {
    if reg == [] then [(name, t)]
    else if reg[0].0 == name then [(name, t)] + reg[1..]
    else [reg[0]] + Put(reg[1..], name, t)
  }

  /** After `reg[name] = t`, `name` looks up `t` and every other name what it did before. */
  lemma {:induction false} PutLookup(reg: Registry, name: string, t: ValueTable)
    ensures forall n :: Lookup(Put(reg, name, t), n) == if n == name then Some(t) else Lookup(reg, n)
  {
    if reg != [] && reg[0].0 != name {
      PutLookup(reg[1..], name, t);
    }
  }

  /** Putting a name keeps the names distinct. */
  lemma PutUnique(reg: Registry, name: string, t: ValueTable)
    requires UniqueNames(reg)
    ensures UniqueNames(Put(reg, name, t))
  {
    if name !in Names(reg) {
      forall i, j | 0 <= i < j < |reg| + 1 ensures Names(Put(reg, name, t))[i] != Names(Put(reg, name, t))[j] {
        assert Names(Put(reg, name, t)) == Names(reg) + [name];
      }
    }
  }

  /** `reg.pop(name)`, without the popped value. */
  function Remove(reg: Registry, name: string): (r: Registry)
    ensures forall n :: n in Names(r) <==> n in Names(reg) && n != name
  {
    if reg == [] then []
    else if reg[0].0 == name then Remove(reg[1..], name)
    else [reg[0]] + Remove(reg[1..], name)
  }

  lemma {:induction false} RemoveUnique(reg: Registry, name: string)
    requires UniqueNames(reg)
    ensures UniqueNames(Remove(reg, name))
  {
    if reg != [] {
      NoDupCons(reg[0].0, Names(reg[1..]));
      RemoveUnique(reg[1..], name);
      if reg[0].0 != name {
        NoDupCons(reg[0].0, Names(Remove(reg[1..], name)));
      }
    }
  }

  /** After `reg.pop(name)` every other name looks up what it did before. */
  lemma {:induction false} RemoveLookup(reg: Registry, name: string)
    ensures forall n | n != name :: Lookup(Remove(reg, name), n) == Lookup(reg, n)
  {
    if reg != [] {
      RemoveLookup(reg[1..], name);
    }
  }

  /** The position of the first table equal to `t`, as the loop over
      `db_enums.items()` finds it. */
  function FirstMatch(reg: Registry, t: ValueTable): (r: Option<nat>)
    ensures r.Some? ==> r.value < |reg| && reg[r.value].1 == t
    ensures r.Some? ==> forall j | 0 <= j < r.value :: reg[j].1 != t
    ensures r.None? ==> forall j | 0 <= j < |reg| :: reg[j].1 != t
  {
    if reg == [] then None
    else if reg[0].1 == t then Some(0)
    else
      match FirstMatch(reg[1..], t)
      case None => None
      case Some(i) => Some(i + 1)
  }

  /** The name of the first table equal to `t`. */
  function FindTable(reg: Registry, t: ValueTable): Option<string> {
    match FirstMatch(reg, t)
    case None => None
    case Some(i) => Some(reg[i].0)
  }

  /** The search loop with its early exit. */
  method FindRegisteredName(reg: Registry, t: ValueTable) returns (r: Option<string>)
    ensures r == FindTable(reg, t)
  {
    var i := 0;
    while i < |reg|
      invariant 0 <= i <= |reg|
      invariant forall j | 0 <= j < i :: reg[j].1 != t
    {
      if reg[i].1 == t {
        return Some(reg[i].0);
      }
      i := i + 1;
    }
    return None;
  }

  // ---------------------------------------------------------------------
  // The configuration of one file

  /** Why the pass stops: `enum_name_proc` reads `conf['enum_prefix']`,
      which raises when the file has no configuration. */
  datatype DbcError = ConfigurationMissing

  /** The configured prefix; an absent configuration has none. */
  function Prefix(conf: Option<Config>): string {
    if conf.Some? then conf.value.enumPrefix else ""
  }

  /** `enum_name_proc(name)`: the canonical name under the configured
      prefix, or the error raised without a configuration. */
  function EnumName(name: string, conf: Option<Config>): (r: Result<string, DbcError>)
    ensures r.Ok? <==> conf.Some?
    ensures r.Ok? ==> r.value == EnumNameProc(name, Prefix(conf))
  {
    if conf.None? then Err(ConfigurationMissing) else Ok(EnumNameProc(name, conf.value.enumPrefix))
  }

  // ---------------------------------------------------------------------
  // Canonical table names (the renaming loop)

  /** One turn of the renaming loop: a name that is not canonical is
      popped and its table stored under the canonical name. */
  function RenameStep(reg: Registry, from: string, conf: Option<Config>): (r: Result<Registry, DbcError>)
    requires from in Names(reg)
    ensures r.Ok? <==> conf.Some?
    ensures r.Ok? ==>
      var to := EnumNameProc(from, Prefix(conf));
      && (UniqueNames(reg) ==> UniqueNames(r.value))
      && (forall n | n in Names(reg) && n != from :: n in Names(r.value))
      && (forall n | n in Names(r.value) :: n in Names(reg) || n == to)
      && (to != from ==> from !in Names(r.value))
      && Lookup(r.value, to) == Lookup(reg, from)
      && (forall n | n != from && n != to :: Lookup(r.value, n) == Lookup(reg, n))
  {
    var to :- EnumName(from, conf);
    if to == from then Ok(reg)
    else
      var removed := Remove(reg, from);
      var t := Lookup(reg, from).value;
      RemoveLookup(reg, from);
      PutLookup(removed, to, t);
      if UniqueNames(reg) then
        RemoveUnique(reg, from);
        PutUnique(removed, to, t);
        Ok(Put(removed, to, t))
      else
        Ok(Put(removed, to, t))
  }

  /** The renaming loop over the snapshot `names` of the table names; it
      fails at its first turn when there is no configuration. */
  function RenameAll(reg: Registry, names: seq<string>, conf: Option<Config>): (r: Result<Registry, DbcError>)
    requires NoDup(names) && forall i | 0 <= i < |names| :: names[i] in Names(reg)
    ensures r.Ok? <==> names == [] || conf.Some?
    ensures r.Ok? && UniqueNames(reg) ==> UniqueNames(r.value)
    decreases |names|
  {
    if names == [] then Ok(reg)
    else
      var next :- RenameStep(reg, names[0], conf);
      RenameAll(next, names[1..], conf)
  }

  /** After the renaming loop every table name is canonical: it ends in
      `_enum` and carries the prefix. */
  lemma {:induction false} RenameAllCanonical(reg: Registry, names: seq<string>, conf: Option<Config>)
    requires NoDup(names) && forall i | 0 <= i < |names| :: names[i] in Names(reg)
    requires forall n | n in Names(reg) :: n in names || Canonical(n, Prefix(conf))
    ensures RenameAll(reg, names, conf).Ok? ==>
      forall n | n in Names(RenameAll(reg, names, conf).value) :: Canonical(n, Prefix(conf))
    decreases |names|
  {
    if names != [] && conf.Some? {
      var prefix := Prefix(conf);
      var next := RenameStep(reg, names[0], conf).value;
      forall n | n in Names(next) ensures n in names[1..] || Canonical(n, prefix) {
        if n != EnumNameProc(names[0], prefix) {
          assert n in Names(reg);
          assert n in names ==> n == names[0] || n in names[1..];
        }
      }
      RenameAllCanonical(next, names[1..], conf);
    }
  }

  /** What one turn of the renaming loop keeps: the names still to visit
      are distinct and registered, and the remaining turns finish the same
      renaming; a failing turn fails the whole loop. */
  lemma RenameStepKeeps(reg: Registry, names: seq<string>, conf: Option<Config>)
    requires names != [] && NoDup(names) && forall j | 0 <= j < |names| :: names[j] in Names(reg)
    requires UniqueNames(reg)
    ensures var r := RenameStep(reg, names[0], conf);
      && (r.Err? ==> RenameAll(reg, names, conf).Err?)
      && (r.Ok? ==>
            && NoDup(names[1..]) && (forall j | 0 <= j < |names[1..]| :: names[1..][j] in Names(r.value))
            && UniqueNames(r.value)
            && RenameAll(r.value, names[1..], conf) == RenameAll(reg, names, conf))
  {
    assert names == [names[0]] + names[1..];
    NoDupCons(names[0], names[1..]);
    var r := RenameStep(reg, names[0], conf);
    if r.Ok? {
      var rest := names[1..];
      forall j | 0 <= j < |rest| ensures rest[j] in Names(r.value) {
        assert rest[j] == names[j + 1];
      }
    }
  }

  /** The loop over `list(db_enums.keys())`, whose body pops a table whose
      name is not canonical and stores it under the canonical name. */
  method CanonicalizeTableNames(tables: Registry, conf: Option<Config>) returns (r: Result<Registry, DbcError>)
    requires UniqueNames(tables)
    ensures r == RenameAll(tables, Names(tables), conf)
    ensures r.Ok? ==> UniqueNames(r.value) && forall n | n in Names(r.value) :: Canonical(n, Prefix(conf))
  {
    var names := Names(tables);
    RenameAllCanonical(tables, names, conf);
    var reg := tables;
    var i := 0;
    while i < |names|
      invariant 0 <= i <= |names|
      invariant NoDup(names[i..]) && forall j | 0 <= j < |names[i..]| :: names[i..][j] in Names(reg)
      invariant UniqueNames(reg)
      invariant RenameAll(reg, names[i..], conf) == RenameAll(tables, names, conf)
    {
      assert names[i..][1..] == names[i + 1..];
      RenameStepKeeps(reg, names[i..], conf);
      var name := names[i];
      if conf.None? {
        // `conf['enum_prefix']` on None
        return Err(ConfigurationMissing);
      }
      var newName := EnumNameProc(name, conf.value.enumPrefix);
      if newName != name {
        var t := Lookup(reg, name).value;
        reg := Put(Remove(reg, name), newName, t);
      }
      i := i + 1;
    }
    return Ok(reg);
  }

  /** A table named `X` and one named `X_enum` collide: the second loses
      its table to the first. */
  lemma RenameCollisionExample(t1: ValueTable, t2: ValueTable)
    ensures RenameAll([("X", t1), ("X_enum", t2)], ["X", "X_enum"], Some(Config("", []))) == Ok([("X_enum", t1)])
  {
    assert EnumNameProc("X", "") == "X_enum";
    assert EnumNameProc("X_enum", "") == "X_enum";
    assert Remove([("X_enum", t2)], "X") == [("X_enum", t2)] + Remove([], "X");
    assert Remove([("X", t1), ("X_enum", t2)], "X") == [("X_enum", t2)];
    assert Put([("X_enum", t2)], "X_enum", t1) == [("X_enum", t1)];
  }

  // ---------------------------------------------------------------------
  // Sorting the elements by name (list.sort with key=Name, stable)

  predicate SortedByName(s: seq<ElementDict>) {
    forall i, j | 0 <= i < j < |s| :: StrLe(s[i].name, s[j].name)
  }

  /** The elements called `n`, in their order. */
  function WithName(s: seq<ElementDict>, n: string): seq<ElementDict> {
    if s == [] then []
    else WithName(s[..|s| - 1], n) + (if s[|s| - 1].name == n then [s[|s| - 1]] else [])
  }

  /** `x` placed after every element whose name is not greater than its own. */
  function Insert(xs: seq<ElementDict>, x: ElementDict): seq<ElementDict> {
    if xs == [] then [x]
    else if StrLe(xs[|xs| - 1].name, x.name) then xs + [x]
    else Insert(xs[..|xs| - 1], x) + [xs[|xs| - 1]]
  }

  function SortByName(s: seq<ElementDict>): seq<ElementDict> {
    if s == [] then [] else Insert(SortByName(s[..|s| - 1]), s[|s| - 1])
  }

  lemma {:induction false} WithNameAppend(s: seq<ElementDict>, t: seq<ElementDict>, n: string)
    ensures WithName(s + t, n) == WithName(s, n) + WithName(t, n)
    decreases |t|
  {
    if t == [] {
      assert s + t == s;
    } else {
      assert (s + t)[..|s + t| - 1] == s + t[..|t| - 1];
      WithNameAppend(s, t[..|t| - 1], n);
    }
  }

  lemma {:induction false} InsertMultiset(xs: seq<ElementDict>, x: ElementDict)
    ensures multiset(Insert(xs, x)) == multiset(xs) + multiset{x}
    decreases |xs|
  {
    if xs != [] && !StrLe(xs[|xs| - 1].name, x.name) {
      InsertMultiset(xs[..|xs| - 1], x);
      assert xs == xs[..|xs| - 1] + [xs[|xs| - 1]];
    }
  }

  lemma {:induction false} InsertSorted(xs: seq<ElementDict>, x: ElementDict)
    requires SortedByName(xs)
    ensures SortedByName(Insert(xs, x))
    decreases |xs|
  {
    if xs != [] {
      var init, last := xs[..|xs| - 1], xs[|xs| - 1];
      if StrLe(last.name, x.name) {
        forall i | 0 <= i < |xs| - 1 ensures StrLe(xs[i].name, x.name) {
          StrLeTransitive(xs[i].name, last.name, x.name);
        }
      } else {
        InsertSorted(init, x);
        InsertMultiset(init, x);
        var ins := Insert(init, x);
        StrLeTotal(last.name, x.name);
        forall i | 0 <= i < |ins| ensures StrLe(ins[i].name, last.name) {
          assert ins[i] in multiset(ins);
          if ins[i] != x {
            assert ins[i] in multiset(init);
            var j :| 0 <= j < |init| && init[j] == ins[i];
            assert xs[j] == init[j];
          }
        }
      }
    }
  }

  lemma {:induction false} InsertWithName(xs: seq<ElementDict>, x: ElementDict, n: string)
    ensures WithName(Insert(xs, x), n) == WithName(xs, n) + (if x.name == n then [x] else [])
    decreases |xs|
  {
    if xs == [] {
      assert WithName([x], n) == WithName([], n) + (if x.name == n then [x] else []);
    } else {
      var init, last := xs[..|xs| - 1], xs[|xs| - 1];
      if StrLe(last.name, x.name) {
        assert (xs + [x])[..|xs|] == xs;
      } else {
        InsertWithName(init, x, n);
        var ins := Insert(init, x);
        assert (ins + [last])[..|ins|] == ins;
        if x.name == n {
          StrLeReflexive(x.name);
        }
      }
    }
  }

  lemma {:induction false} SortByNameSorted(s: seq<ElementDict>)
    ensures SortedByName(SortByName(s))
  {
    if s != [] {
      SortByNameSorted(s[..|s| - 1]);
      InsertSorted(SortByName(s[..|s| - 1]), s[|s| - 1]);
    }
  }

  lemma MultisetSnoc(s: seq<ElementDict>)
    requires s != []
    ensures multiset(s) == multiset(s[..|s| - 1]) + multiset{s[|s| - 1]}
  {
    assert s == s[..|s| - 1] + [s[|s| - 1]];
  }

  lemma {:induction false} SortByNameMultiset(s: seq<ElementDict>)
    ensures multiset(SortByName(s)) == multiset(s)
  {
    if s != [] {
      var init, last := s[..|s| - 1], s[|s| - 1];
      var sorted := SortByName(init);
      assert SortByName(s) == Insert(sorted, last);
      SortByNameMultiset(init);
      InsertMultiset(sorted, last);
      MultisetSnoc(s);
    }
  }

  lemma {:induction false} SortByNameStable(s: seq<ElementDict>, n: string)
    ensures WithName(SortByName(s), n) == WithName(s, n)
  {
    if s != [] {
      var init, last := s[..|s| - 1], s[|s| - 1];
      SortByNameStable(init, n);
      InsertWithName(SortByName(init), last, n);
    }
  }

  /** The sort puts the elements in order of their names, loses and adds
      none, and keeps elements with equal names in their original order. */
  lemma SortByNameProperties(s: seq<ElementDict>)
    ensures SortedByName(SortByName(s))
    ensures multiset(SortByName(s)) == multiset(s)
    ensures forall n :: WithName(SortByName(s), n) == WithName(s, n)
  {
    SortByNameSorted(s);
    SortByNameMultiset(s);
    forall n ensures WithName(SortByName(s), n) == WithName(s, n) {
      SortByNameStable(s, n);
    }
  }

  // ---------------------------------------------------------------------
  // Signals

  /** The registry of named tables (`db_enums`) and the export list
      (`EnumsExport`) as they stand between two signals. */
  datatype EnumState = EnumState(registry: Registry, exports: Registry)

  /** `enum_in_export(name)`. */
  predicate EnumInExport(exports: Registry, name: string) {
    name in Names(exports)
  }

  /** `EnumsExport.append({name: t})` unless `name` is already exported. */
  function Export(exports: Registry, name: string, t: ValueTable): (r: Registry)
    ensures EnumInExport(exports, name) ==> r == exports
    ensures !EnumInExport(exports, name) ==> r == exports + [(name, t)]
    ensures name in Names(r)
    ensures |r| >= |exports| && r[..|exports|] == exports
    ensures forall n | n in Names(r) :: n in Names(exports) || n == name
    ensures UniqueNames(exports) ==> UniqueNames(r)
  {
    if EnumInExport(exports, name) then exports
    else
      NamesAppend(exports, [(name, t)]);
      NoDupSnocIf(Names(exports), name);
      assert (exports + [(name, t)])[..|exports|] == exports;
      exports + [(name, t)]
  }

  /** The element dictionary of one signal. */
  function SignalElement(s: Signal, dataType: string): ElementDict {
    ElementDict(s.name, dataType, 1, Some(s.comment.GetOr("")), None, Some(s.unit.GetOr("")), Some(s.values != map[]))
  }

  datatype Resolution = Resolution(state: EnumState, element: ElementDict)

  /** `if enum_type:` after the search: a table found under a non-empty name. */
  predicate FoundNamed(reg: Registry, t: ValueTable) {
    FindTable(reg, t).Some? && FindTable(reg, t).value != ""
  }

  /** The body of the loop over `message.signals`; naming a new
      enumeration fails without a configuration. */
  function ResolveSignal(st: EnumState, s: Signal, conf: Option<Config>): (r: Result<Resolution, DbcError>)
    ensures r.Err? <==> conf.None? && s.values != map[] && !FoundNamed(st.registry, s.values)
  {
    if s.values == map[] then
      Ok(Resolution(st, SignalElement(s, ProposeDataType(s))))
    else if FoundNamed(st.registry, s.values) then
      var name := FindTable(st.registry, s.values).value;
      Ok(Resolution(EnumState(st.registry, Export(st.exports, name, s.values)), SignalElement(s, "Enum: " + name)))
    else
      var name :- EnumName(s.name, conf);
      Ok(Resolution(EnumState(Put(st.registry, name, s.values), Export(st.exports, name, s.values)), SignalElement(s, "Enum: " + name)))
  }

  /** What holds of the registry and the export list throughout the pass:
      names are distinct and canonical, and every exported name is
      registered. */
  predicate GoodState(st: EnumState, prefix: string) {
    && UniqueNames(st.registry) && UniqueNames(st.exports)
    && (forall n | n in Names(st.registry) :: Canonical(n, prefix))
    && (forall n | n in Names(st.exports) :: n in Names(st.registry))
  }

  /** The state only grows: registered names stay registered and the
      export list is only appended to. */
  predicate Grows(st: EnumState, st': EnumState) {
    && (forall n | n in Names(st.registry) :: n in Names(st'.registry))
    && |st'.exports| >= |st.exports| && st'.exports[..|st.exports|] == st.exports
  }

  /** The element a signal becomes: its name, comment and unit (or ""),
      one dimension, and an enumeration type exactly when it has a value
      table, a proposed scalar type otherwise. */
  predicate ElementOf(e: ElementDict, s: Signal) {
    && e.name == s.name && e.dimensions == 1
    && e.description == Some(s.comment.GetOr("")) && e.units == Some(s.unit.GetOr(""))
    && e.docUnits == None && e.isEnum == Some(s.values != map[])
    && (s.values == map[] ==> e.dataType == ProposeDataType(s))
    && (s.values != map[] <==> StartsWith(e.dataType, "Enum: "))
  }

  /** One element per signal, in signal order. */
  predicate ElementsOf(es: seq<ElementDict>, ss: seq<Signal>) {
    |es| == |ss| && forall j | 0 <= j < |ss| :: ElementOf(es[j], ss[j])
  }

  /** The enumeration named by an `Enum: <name>` data type. */
  function EnumRef(dataType: string): string
    requires StartsWith(dataType, "Enum: ")
  {
    dataType[6..]
  }

  lemma {:induction false} LookupAt(reg: Registry, i: nat)
    requires UniqueNames(reg) && i < |reg|
    ensures Lookup(reg, reg[i].0) == Some(reg[i].1)
  {
    NoDupCons(reg[0].0, Names(reg[1..]));
    if i > 0 {
      NamesAt(reg[1..], i - 1);
      LookupAt(reg[1..], i - 1);
    }
  }

  lemma NamesPrefix(a: Registry, b: Registry, n: string)
    requires |b| >= |a| && b[..|a|] == a && n in Names(a)
    ensures n in Names(b)
  {
    NamesAppend(a, b[|a|..]);
    assert b == a + b[|a|..];
  }

  /** One signal: the state invariant is kept; a signal with a value table
      refers to an enumeration exported with that signal's table unless
      the name was exported before, which the registry now maps to that
      very table, reusing the name of the first registered table with the
      same contents if there is one and registering the table under the
      canonical form of the signal's name otherwise. */
  lemma ResolveSignalProperties(st: EnumState, s: Signal, conf: Option<Config>)
    requires GoodState(st, Prefix(conf))
    ensures var r := ResolveSignal(st, s, conf);
      r.Ok? ==>
      && GoodState(r.value.state, Prefix(conf)) && Grows(st, r.value.state)
      && ElementOf(r.value.element, s)
      && (s.values == map[] ==> r.value.state == st)
      && (s.values != map[] ==>
            && r.value.state.exports == Export(st.exports, EnumRef(r.value.element.dataType), s.values)
            && Lookup(r.value.state.registry, EnumRef(r.value.element.dataType)) == Some(s.values)
            && (FindTable(st.registry, s.values).Some? ==>
                  EnumRef(r.value.element.dataType) == FindTable(st.registry, s.values).value
                  && r.value.state.registry == st.registry)
            && (FindTable(st.registry, s.values).None? ==>
                  EnumRef(r.value.element.dataType) == EnumNameProc(s.name, Prefix(conf))))
  {
    var r := ResolveSignal(st, s, conf);
    if r.Ok? && s.values != map[] {
      var found := FindTable(st.registry, s.values);
      var prefix := Prefix(conf);
      if found.Some? {
        var i := FirstMatch(st.registry, s.values).value;
        NamesAt(st.registry, i);
        assert found.value in Names(st.registry);
        assert EndsWith(found.value, "_enum");
        LookupAt(st.registry, i);
      } else {
        var name := EnumNameProc(s.name, prefix);
        PutUnique(st.registry, name, s.values);
        PutLookup(st.registry, name, s.values);
        EnumNameProcIdempotent(s.name, prefix);
      }
      assert ("Enum: " + EnumRef(r.value.element.dataType))[..6] == "Enum: ";
    }
  }

  /** The loop over `message.signals`, as a left fold that stops at the
      first failure. */
  function ResolveSignals(st: EnumState, ss: seq<Signal>, conf: Option<Config>): (r: Result<(EnumState, seq<ElementDict>), DbcError>)
    ensures conf.Some? ==> r.Ok?
    ensures r.Ok? ==> |r.value.1| == |ss|
    decreases |ss|
  {
    if ss == [] then Ok((st, []))
    else
      var p :- ResolveSignals(st, ss[..|ss| - 1], conf);
      var r :- ResolveSignal(p.0, ss[|ss| - 1], conf);
      Ok((r.state, p.1 + [r.element]))
  }

  /** Every enumeration the elements refer to is in the export list. */
  predicate EnumRefsExported(es: seq<ElementDict>, exports: Registry) {
    forall j | 0 <= j < |es| && StartsWith(es[j].dataType, "Enum: ") :: EnumRef(es[j].dataType) in Names(exports)
  }

  lemma EnumRefsExportedGrows(es: seq<ElementDict>, exports: Registry, exports': Registry)
    requires EnumRefsExported(es, exports)
    requires |exports'| >= |exports| && exports'[..|exports|] == exports
    ensures EnumRefsExported(es, exports')
  {
    forall j | 0 <= j < |es| && StartsWith(es[j].dataType, "Enum: ") ensures EnumRef(es[j].dataType) in Names(exports') {
      NamesPrefix(exports, exports', EnumRef(es[j].dataType));
    }
  }

  /** Every export from position `from` on was made for one of the
      signals: it carries that signal's table, and the signal's element
      refers to it by name. */
  predicate ExportedFor(exports: Registry, from: nat, ss: seq<Signal>, es: seq<ElementDict>) {
    forall i | from <= i < |exports| :: MadeFor(exports[i], ss, es)
  }

  /** The export was made for one of the signals. */
  predicate MadeFor(x: (string, ValueTable), ss: seq<Signal>, es: seq<ElementDict>) {
    exists j | 0 <= j < |ss| && j < |es| :: ss[j].values == x.1 && es[j].dataType == "Enum: " + x.0
  }

  lemma ExportedForSnoc(exports: Registry, exports': Registry, from: nat, ss: seq<Signal>, es: seq<ElementDict>, s: Signal, e: ElementDict)
    requires from <= |exports| && ExportedFor(exports, from, ss, es) && |es| == |ss|
    requires exports' == exports || (s.values != map[] && StartsWith(e.dataType, "Enum: ") && exports' == exports + [(EnumRef(e.dataType), s.values)])
    ensures ExportedFor(exports', from, ss + [s], es + [e])
  {
    var ss', es' := ss + [s], es + [e];
    forall i | from <= i < |exports'| ensures MadeFor(exports'[i], ss', es') {
      if i < |exports| {
        assert MadeFor(exports[i], ss, es);
        var j :| 0 <= j < |ss| && j < |es| && ss[j].values == exports[i].1 && es[j].dataType == "Enum: " + exports[i].0;
        assert ss'[j] == ss[j] && es'[j] == es[j] && exports'[i] == exports[i];
      } else {
        assert es'[|ss|] == e && ss'[|ss|] == s;
        assert e.dataType == "Enum: " + EnumRef(e.dataType);
      }
    }
  }

  lemma ElementsOfSnoc(es: seq<ElementDict>, ss: seq<Signal>, e: ElementDict, s: Signal)
    requires ElementsOf(es, ss) && ElementOf(e, s)
    ensures ElementsOf(es + [e], ss + [s])
  {
    var es', ss' := es + [e], ss + [s];
    forall j | 0 <= j < |ss'| ensures ElementOf(es'[j], ss'[j]) {
      if j < |ss| {
        assert es'[j] == es[j] && ss'[j] == ss[j];
      }
    }
  }

  lemma EnumRefsExportedSnoc(es: seq<ElementDict>, e: ElementDict, exports: Registry)
    requires EnumRefsExported(es, exports)
    requires StartsWith(e.dataType, "Enum: ") ==> EnumRef(e.dataType) in Names(exports)
    ensures EnumRefsExported(es + [e], exports)
  {
    var es' := es + [e];
    forall j | 0 <= j < |es'| && StartsWith(es'[j].dataType, "Enum: ") ensures EnumRef(es'[j].dataType) in Names(exports) {
      if j < |es| {
        assert es'[j] == es[j];
      }
    }
  }

  /** What the loop over the signals `ss` promises, from state `st` to
      state `st'` with elements `es`. */
  predicate SignalsResolved(st: EnumState, ss: seq<Signal>, prefix: string, st': EnumState, es: seq<ElementDict>) {
    && GoodState(st', prefix) && Grows(st, st')
    && ElementsOf(es, ss)
    && EnumRefsExported(es, st'.exports)
    && ExportedFor(st'.exports, |st.exports|, ss, es)
  }

  /** One signal on top of the signals before it. */
  lemma ResolveSignalsStep(st: EnumState, st1: EnumState, init: seq<Signal>, es: seq<ElementDict>, s: Signal, conf: Option<Config>)
    requires SignalsResolved(st, init, Prefix(conf), st1, es)
    ensures var r := ResolveSignal(st1, s, conf);
      r.Ok? ==> SignalsResolved(st, init + [s], Prefix(conf), r.value.state, es + [r.value.element])
  {
    var r := ResolveSignal(st1, s, conf);
    if r.Ok? {
      ResolveSignalProperties(st1, s, conf);
      var st2, e := r.value.state, r.value.element;
      EnumRefsExportedGrows(es, st1.exports, st2.exports);
      EnumRefsExportedSnoc(es, e, st2.exports);
      ElementsOfSnoc(es, init, e, s);
      ExportedForSnoc(st1.exports, st2.exports, |st.exports|, init, es, s, e);
      GrowsTrans(st, st1, st2);
    }
  }

  lemma ResolveSignalsSnoc(st: EnumState, ss: seq<Signal>, conf: Option<Config>)
    requires ss != []
    requires var p := ResolveSignals(st, ss[..|ss| - 1], conf);
      p.Ok? ==> SignalsResolved(st, ss[..|ss| - 1], Prefix(conf), p.value.0, p.value.1)
    ensures var r := ResolveSignals(st, ss, conf);
      r.Ok? ==> SignalsResolved(st, ss, Prefix(conf), r.value.0, r.value.1)
  {
    var init, s := ss[..|ss| - 1], ss[|ss| - 1];
    var r := ResolveSignals(st, ss, conf);
    if r.Ok? {
      var p := ResolveSignals(st, init, conf).value;
      var q := ResolveSignal(p.0, s, conf).value;
      assert r.value == (q.state, p.1 + [q.element]);
      ResolveSignalsStep(st, p.0, init, p.1, s, conf);
      LastSplit(ss);
    }
  }

  /** The signals of a message: one element per signal, in signal order,
      each referring only to exported enumerations; every enumeration
      exported on the way was exported for one of these signals, with its
      table. */
  lemma {:induction false} ResolveSignalsProperties(st: EnumState, ss: seq<Signal>, conf: Option<Config>)
    requires GoodState(st, Prefix(conf))
    ensures var r := ResolveSignals(st, ss, conf);
      r.Ok? ==> SignalsResolved(st, ss, Prefix(conf), r.value.0, r.value.1)
    decreases |ss|
  {
    if ss == [] {
      assert Grows(st, st);
    } else {
      ResolveSignalsProperties(st, ss[..|ss| - 1], conf);
      ResolveSignalsSnoc(st, ss, conf);
    }
  }

  /** A failure part-way through the signals fails the whole loop. */
  lemma {:induction false} ResolveSignalsErrStays(st: EnumState, ss: seq<Signal>, k: nat, conf: Option<Config>)
    requires k <= |ss| && ResolveSignals(st, ss[..k], conf).Err?
    ensures ResolveSignals(st, ss, conf) == ResolveSignals(st, ss[..k], conf)
    decreases |ss|
  {
    if k < |ss| {
      var init := ss[..|ss| - 1];
      assert init[..k] == ss[..k];
      ResolveSignalsErrStays(st, init, k, conf);
    } else {
      assert ss[..k] == ss;
    }
  }

  // ---------------------------------------------------------------------
  // Frames and buses

  /** Placeholder frames are skipped, and so are frames missing from a
      non-empty allow-list. */
  predicate FrameKept(name: string, conf: Option<Config>) {
    !StartsWith(name, "VECTOR__INDEPENDENT_SIG") && (conf.None? || conf.value.msgs == [] || name in conf.value.msgs)
  }

  function BusName(message: string): string {
    "CAN_MSG_" + message + "_t"
  }

  /** The availability flag added to every bus that lacks one. */
  const AVAILABILITY := ElementDict("IsMsgAvl", "boolean", 1, Some("Is Message Available"), None, Some(""), None)

  function ElementNames(es: seq<ElementDict>): seq<string> {
    seq(|es|, i requires 0 <= i < |es| => es[i].name)
  }

  function SignalNames(ss: seq<Signal>): seq<string> {
    seq(|ss|, i requires 0 <= i < |ss| => ss[i].name)
  }

  /** The sorted elements, with the availability flag in front unless an
      element already has its name. */
  function WithAvailability(es: seq<ElementDict>): seq<ElementDict> {
    if "IsMsgAvl" in ElementNames(es) then es else [AVAILABILITY] + es
  }

  type BusEntry = (string, seq<ElementDict>)

  /** The frames that pass the filters, in order. */
  function KeptFrames(frames: seq<Frame>, conf: Option<Config>): seq<Frame> {
    if frames == [] then []
    else KeptFrames(frames[..|frames| - 1], conf) + (if FrameKept(frames[|frames| - 1].name, conf) then [frames[|frames| - 1]] else [])
  }

  /** The loop over `db.frames`, as a left fold that stops at the first
      failure. */
  function BuildFrames(st: EnumState, frames: seq<Frame>, conf: Option<Config>): (r: Result<(EnumState, seq<BusEntry>), DbcError>)
    ensures conf.Some? ==> r.Ok?
    decreases |frames|
  {
    if frames == [] then Ok((st, []))
    else
      var p :- BuildFrames(st, frames[..|frames| - 1], conf);
      var f := frames[|frames| - 1];
      if !FrameKept(f.name, conf) then Ok(p)
      else
        var q :- ResolveSignals(p.0, f.signals, conf);
        Ok((q.0, p.1 + [(BusName(f.name), WithAvailability(SortByName(q.1)))]))
  }

  /** A failure at one frame fails the whole loop. */
  lemma {:induction false} BuildFramesErrStays(st: EnumState, frames: seq<Frame>, k: nat, conf: Option<Config>)
    requires k <= |frames| && BuildFrames(st, frames[..k], conf).Err?
    ensures BuildFrames(st, frames, conf) == BuildFrames(st, frames[..k], conf)
    decreases |frames|
  {
    if k < |frames| {
      var init := frames[..|frames| - 1];
      assert init[..k] == frames[..k];
      BuildFramesErrStays(st, init, k, conf);
    } else {
      assert frames[..k] == frames;
    }
  }

  lemma {:induction false} InsertNames(xs: seq<ElementDict>, x: ElementDict)
    ensures multiset(ElementNames(Insert(xs, x))) == multiset(ElementNames(xs)) + multiset{x.name}
    decreases |xs|
  {
    if xs == [] {
      assert ElementNames([x]) == [x.name];
    } else if StrLe(xs[|xs| - 1].name, x.name) {
      assert ElementNames(xs + [x]) == ElementNames(xs) + [x.name];
    } else {
      var init := xs[..|xs| - 1];
      InsertNames(init, x);
      assert ElementNames(Insert(init, x) + [xs[|xs| - 1]]) == ElementNames(Insert(init, x)) + [xs[|xs| - 1].name];
      assert ElementNames(xs) == ElementNames(init) + [xs[|xs| - 1].name];
    }
  }

  lemma {:induction false} SortByNameNames(s: seq<ElementDict>)
    ensures multiset(ElementNames(SortByName(s))) == multiset(ElementNames(s))
  {
    if s != [] {
      var init := s[..|s| - 1];
      SortByNameNames(init);
      InsertNames(SortByName(init), s[|s| - 1]);
      assert ElementNames(s) == ElementNames(init) + [s[|s| - 1].name];
    }
  }

  /** The bus built from `signals` whose elements, in signal order, are
      `es`: the availability flag in front when no signal has its name,
      and after it exactly the elements `es` (a permutation of them),
      sorted by name. */
  predicate BusOf(bus: seq<ElementDict>, es: seq<ElementDict>, signals: seq<Signal>) {
    && ElementsOf(es, signals)
    && var avl := "IsMsgAvl" !in SignalNames(signals);
    && (avl ==> |bus| > 0 && bus[0] == AVAILABILITY)
    && var rest := if avl then bus[1..] else bus;
    && multiset(rest) == multiset(es)
    && SortedByName(rest)
  }

  lemma ElementNamesOf(es: seq<ElementDict>, signals: seq<Signal>)
    requires ElementsOf(es, signals)
    ensures ElementNames(es) == SignalNames(signals)
  {
  }

  lemma InMultisetNames(ns: seq<string>, n: string)
    ensures n in ns <==> n in multiset(ns)
  {
  }

  /** The bus of one message is as `BusOf` describes. */
  lemma FrameBusProperties(es: seq<ElementDict>, signals: seq<Signal>)
    requires ElementsOf(es, signals)
    ensures BusOf(WithAvailability(SortByName(es)), es, signals)
  {
    var sorted := SortByName(es);
    var names := SignalNames(signals);
    ElementNamesOf(es, signals);
    assert multiset(ElementNames(sorted)) == multiset(names) by {
      SortByNameNames(es);
    }
    assert SortedByName(sorted) && multiset(sorted) == multiset(es) by {
      SortByNameProperties(es);
    }
    InMultisetNames(ElementNames(sorted), "IsMsgAvl");
    InMultisetNames(names, "IsMsgAvl");
    if "IsMsgAvl" !in names {
      assert ([AVAILABILITY] + sorted)[1..] == sorted;
    }
  }

  /** The new bus refers only to enumerations its signals refer to. */
  lemma BusRefsExported(es: seq<ElementDict>, exports: Registry)
    requires EnumRefsExported(es, exports)
    ensures EnumRefsExported(WithAvailability(SortByName(es)), exports)
  {
    var sorted := SortByName(es);
    var bus := WithAvailability(sorted);
    assert multiset(sorted) == multiset(es) by {
      SortByNameProperties(es);
    }
    forall j | 0 <= j < |bus| && StartsWith(bus[j].dataType, "Enum: ") ensures EnumRef(bus[j].dataType) in Names(exports) {
      assert AVAILABILITY.dataType[..6][0] != "Enum: "[0];
      assert bus[j] != AVAILABILITY;
      assert bus[j] in sorted;
      assert bus[j] in multiset(es);
      var k :| 0 <= k < |es| && es[k] == bus[j];
    }
  }

  /** Each element of the signal-order list has a place on the bus. */
  lemma OnBus(bus: seq<ElementDict>, es: seq<ElementDict>, signals: seq<Signal>, j: nat)
    requires BusOf(bus, es, signals) && j < |es|
    ensures exists m | 0 <= m < |bus| :: bus[m] == es[j]
  {
    var avl := "IsMsgAvl" !in SignalNames(signals);
    var rest := if avl then bus[1..] else bus;
    assert es[j] in multiset(es);
    assert es[j] in rest;
    var m :| 0 <= m < |rest| && rest[m] == es[j];
    if avl {
      assert bus[m + 1] == es[j];
    } else {
      assert bus[m] == es[j];
    }
  }

  /** What the buses built so far say about the messages kept so far. */
  ghost predicate BusesOf(buses: seq<BusEntry>, kept: seq<Frame>, exports: Registry) {
    && |buses| == |kept|
    && forall i | 0 <= i < |buses| ::
         && buses[i].0 == BusName(kept[i].name)
         && (exists es :: BusOf(buses[i].1, es, kept[i].signals))
         && EnumRefsExported(buses[i].1, exports)
  }

  /** Every export from position `from` on carries the table of a signal
      of a kept message, and the element of that signal on the message's
      bus refers to it by name. */
  predicate ExportsTraced(exports: Registry, from: nat, kept: seq<Frame>, buses: seq<BusEntry>) {
    forall i | from <= i < |exports| :: TracedTo(exports[i], kept, buses)
  }

  /** The export carries the table of a signal of a kept message whose
      bus element refers to it by name. */
  predicate TracedTo(x: (string, ValueTable), kept: seq<Frame>, buses: seq<BusEntry>) {
    exists k, j, m | 0 <= k < |kept| && k < |buses| && 0 <= j < |kept[k].signals| && 0 <= m < |buses[k].1| ::
      && kept[k].signals[j].values == x.1
      && ElementOf(buses[k].1[m], kept[k].signals[j])
      && buses[k].1[m].dataType == "Enum: " + x.0
  }

  lemma BusesOfSnoc(buses: seq<BusEntry>, kept: seq<Frame>, exports: Registry, exports': Registry, f: Frame, bus: seq<ElementDict>, es: seq<ElementDict>)
    requires BusesOf(buses, kept, exports)
    requires |exports'| >= |exports| && exports'[..|exports|] == exports
    requires BusOf(bus, es, f.signals) && EnumRefsExported(bus, exports')
    ensures BusesOf(buses + [(BusName(f.name), bus)], kept + [f], exports')
  {
    var buses', kept' := buses + [(BusName(f.name), bus)], kept + [f];
    forall i | 0 <= i < |buses'|
      ensures buses'[i].0 == BusName(kept'[i].name)
      ensures exists es :: BusOf(buses'[i].1, es, kept'[i].signals)
      ensures EnumRefsExported(buses'[i].1, exports')
    {
      if i < |buses| {
        assert buses'[i] == buses[i] && kept'[i] == kept[i];
        EnumRefsExportedGrows(buses[i].1, exports, exports');
      } else {
        assert BusOf(buses'[i].1, es, kept'[i].signals);
      }
    }
  }

  lemma ExportsTracedSnoc(exports: Registry, exports': Registry, from: nat, kept: seq<Frame>, buses: seq<BusEntry>,
                          f: Frame, bus: seq<ElementDict>, es: seq<ElementDict>)
    requires from <= |exports| && |exports'| >= |exports| && exports'[..|exports|] == exports
    requires ExportsTraced(exports, from, kept, buses) && |kept| == |buses|
    requires BusOf(bus, es, f.signals) && ExportedFor(exports', |exports|, f.signals, es)
    ensures ExportsTraced(exports', from, kept + [f], buses + [(BusName(f.name), bus)])
  {
    var kept', buses' := kept + [f], buses + [(BusName(f.name), bus)];
    forall i | from <= i < |exports'| ensures TracedTo(exports'[i], kept', buses') {
      if i < |exports| {
        assert exports'[i] == exports[i];
        assert TracedTo(exports[i], kept, buses);
        var k, j, m :| 0 <= k < |kept| && k < |buses| && 0 <= j < |kept[k].signals| && 0 <= m < |buses[k].1|
          && kept[k].signals[j].values == exports[i].1
          && ElementOf(buses[k].1[m], kept[k].signals[j])
          && buses[k].1[m].dataType == "Enum: " + exports[i].0;
        assert kept'[k] == kept[k] && buses'[k] == buses[k];
      } else {
        assert MadeFor(exports'[i], f.signals, es);
        var j :| 0 <= j < |f.signals| && j < |es| && f.signals[j].values == exports'[i].1 && es[j].dataType == "Enum: " + exports'[i].0;
        OnBus(bus, es, f.signals, j);
        var m :| 0 <= m < |bus| && bus[m] == es[j];
        var k := |kept|;
        assert kept'[k] == f && buses'[k].1 == bus;
        assert ElementOf(buses'[k].1[m], kept'[k].signals[j]);
      }
    }
  }

  lemma GrowsTrans(a: EnumState, b: EnumState, c: EnumState)
    requires Grows(a, b) && Grows(b, c)
    ensures Grows(a, c)
  {
    assert c.exports[..|a.exports|] == c.exports[..|b.exports|][..|a.exports|];
  }

  /** One kept frame on top of the frames before it. */
  lemma BuildFramesStep(st: EnumState, st1: EnumState, buses: seq<BusEntry>, kept: seq<Frame>, f: Frame, conf: Option<Config>)
    requires GoodState(st1, Prefix(conf)) && Grows(st, st1)
    requires BusesOf(buses, kept, st1.exports) && ExportsTraced(st1.exports, |st.exports|, kept, buses)
    ensures var q := ResolveSignals(st1, f.signals, conf);
      q.Ok? ==>
      var buses' := buses + [(BusName(f.name), WithAvailability(SortByName(q.value.1)))];
      && GoodState(q.value.0, Prefix(conf)) && Grows(st, q.value.0)
      && BusesOf(buses', kept + [f], q.value.0.exports)
      && ExportsTraced(q.value.0.exports, |st.exports|, kept + [f], buses')
  {
    var q := ResolveSignals(st1, f.signals, conf);
    if q.Ok? {
      ResolveSignalsProperties(st1, f.signals, conf);
      var (st2, es) := q.value;
      var bus := WithAvailability(SortByName(es));
      FrameBusProperties(es, f.signals);
      BusRefsExported(es, st2.exports);
      BusesOfSnoc(buses, kept, st1.exports, st2.exports, f, bus, es);
      ExportsTracedSnoc(st1.exports, st2.exports, |st.exports|, kept, buses, f, bus, es);
      GrowsTrans(st, st1, st2);
    }
  }

  /** Every message that passes the filters becomes one bus, in message
      order, named after the message, as `BusOf` describes; every
      enumeration the buses refer to is exported, and every enumeration
      exported on the way carries the table of a signal of a kept message
      whose bus element refers to it by name. */
  lemma {:induction false} BuildFramesProperties(st: EnumState, frames: seq<Frame>, conf: Option<Config>)
    requires GoodState(st, Prefix(conf))
    ensures var r := BuildFrames(st, frames, conf);
      r.Ok? ==>
      && GoodState(r.value.0, Prefix(conf)) && Grows(st, r.value.0)
      && BusesOf(r.value.1, KeptFrames(frames, conf), r.value.0.exports)
      && ExportsTraced(r.value.0.exports, |st.exports|, KeptFrames(frames, conf), r.value.1)
    decreases |frames|
  {
    if frames != [] && BuildFrames(st, frames, conf).Ok? {
      var init, f := frames[..|frames| - 1], frames[|frames| - 1];
      BuildFramesProperties(st, init, conf);
      var (st1, buses) := BuildFrames(st, init, conf).value;
      if FrameKept(f.name, conf) {
        BuildFramesStep(st, st1, buses, KeptFrames(init, conf), f, conf);
      }
    }
  }

  // ---------------------------------------------------------------------
  // The whole pass (create_bus_entries_from_dbc)

  /** The export list after its post-processing loop. */
  function SanitizedExports(exports: Registry): (r: Registry)
    ensures |r| == |exports|
    ensures forall i | 0 <= i < |exports| :: r[i] == (exports[i].0, SanitizedTable(exports[i].1))
  {
    seq(|exports|, i requires 0 <= i < |exports| => (exports[i].0, SanitizedTable(exports[i].1)))
  }

  lemma SanitizedExportsNames(exports: Registry)
    ensures Names(SanitizedExports(exports)) == Names(exports)
  {
    var r := SanitizedExports(exports);
    forall i | 0 <= i < |exports| ensures Names(r)[i] == Names(exports)[i] {
      NamesAt(r, i);
      NamesAt(exports, i);
    }
  }

  /** `create_bus_entries_from_dbc(db, conf)`, where `conf` is the entry of
      this file in the configuration, if any: the renaming loop, the loop
      over the messages, and the post-processing of the export list. */
  function CreateBusEntries(db: Dbc, conf: Option<Config>): (r: Result<(seq<BusEntry>, Registry), DbcError>)
    requires UniqueNames(db.valueTables)
    ensures conf.Some? ==> r.Ok?
  {
    var registry :- RenameAll(db.valueTables, Names(db.valueTables), conf);
    var p :- BuildFrames(EnumState(registry, []), db.frames, conf);
    Ok((p.1, SanitizedExports(p.0.exports)))
  }

  /** The registry the pass starts from is in good shape. */
  lemma InitialState(tables: Registry, conf: Option<Config>)
    requires UniqueNames(tables)
    ensures var r := RenameAll(tables, Names(tables), conf);
      r.Ok? ==> GoodState(EnumState(r.value, []), Prefix(conf))
  {
    RenameAllCanonical(tables, Names(tables), conf);
  }

  /** Every exported enumeration is the rewritten table of a signal of a
      kept message, and that signal's element on the message's bus says
      `Enum: <name>`. */
  predicate ExportsFromSignals(exports: Registry, kept: seq<Frame>, buses: seq<BusEntry>) {
    forall i | 0 <= i < |exports| :: SanitizedFrom(exports[i], kept, buses)
  }

  /** The export is the rewritten table of a signal of a kept message
      whose bus element refers to it by name. */
  predicate SanitizedFrom(x: (string, ValueTable), kept: seq<Frame>, buses: seq<BusEntry>) {
    exists k, j, m | 0 <= k < |kept| && k < |buses| && 0 <= j < |kept[k].signals| && 0 <= m < |buses[k].1| ::
      && x.1 == SanitizedTable(kept[k].signals[j].values)
      && ElementOf(buses[k].1[m], kept[k].signals[j])
      && buses[k].1[m].dataType == "Enum: " + x.0
  }

  lemma SanitizedTraced(raw: Registry, kept: seq<Frame>, buses: seq<BusEntry>)
    requires ExportsTraced(raw, 0, kept, buses)
    ensures ExportsFromSignals(SanitizedExports(raw), kept, buses)
  {
    var exports := SanitizedExports(raw);
    forall i | 0 <= i < |exports| ensures SanitizedFrom(exports[i], kept, buses) {
      assert TracedTo(raw[i], kept, buses);
      var k, j, m :| 0 <= k < |kept| && k < |buses| && 0 <= j < |kept[k].signals| && 0 <= m < |buses[k].1|
        && kept[k].signals[j].values == raw[i].1
        && ElementOf(buses[k].1[m], kept[k].signals[j])
        && buses[k].1[m].dataType == "Enum: " + raw[i].0;
      assert exports[i] == (raw[i].0, SanitizedTable(raw[i].1));
    }
  }

  /** What one successful run of the pass promises: one bus per kept
      message, in order, as `BusOf` describes; every enumeration a bus
      refers to is exported exactly once under a canonical name (so the
      renaming branch of the post-processing loop never fires); every
      export is the rewritten table of a signal whose bus element refers
      to it; and every exported label is present and C-compatible (possibly empty). */
  lemma CreateBusEntriesProperties(db: Dbc, conf: Option<Config>)
    requires UniqueNames(db.valueTables)
    ensures var r := CreateBusEntries(db, conf);
      r.Ok? ==>
      var kept := KeptFrames(db.frames, conf);
      && BusesOf(r.value.0, kept, r.value.1)
      && ExportsFromSignals(r.value.1, kept, r.value.0)
      && UniqueNames(r.value.1)
      && (forall n | n in Names(r.value.1) :: Canonical(n, Prefix(conf)))
      && (forall i, k | 0 <= i < |r.value.1| && k in r.value.1[i].1 ::
            r.value.1[i].1[k].Some? && IsCCompatible(r.value.1[i].1[k].value))
  {
    var r := CreateBusEntries(db, conf);
    if r.Ok? {
      var registry := RenameAll(db.valueTables, Names(db.valueTables), conf).value;
      InitialState(db.valueTables, conf);
      BuildFramesProperties(EnumState(registry, []), db.frames, conf);
      var (st, buses) := BuildFrames(EnumState(registry, []), db.frames, conf).value;
      SanitizedExportsNames(st.exports);
      var exports := SanitizedExports(st.exports);
      SanitizedTraced(st.exports, KeptFrames(db.frames, conf), buses);
      forall i | 0 <= i < |buses| ensures EnumRefsExported(buses[i].1, exports) {
        assert EnumRefsExported(buses[i].1, st.exports);
      }
    }
  }

  /** Some signal has a value table. */
  predicate HasTable(ss: seq<Signal>) {
    exists j | 0 <= j < |ss| :: ss[j].values != map[]
  }

  /** Some message that is not skipped has a signal with a value table. */
  predicate KeptHasTable(frames: seq<Frame>) {
    exists i | 0 <= i < |frames| :: FrameKept(frames[i].name, None) && HasTable(frames[i].signals)
  }

  /** Without a configuration, the first call of `enum_name_proc` fails:
      there is one as soon as the matrix has a value table or a message
      that is not skipped has a signal with one. */
  predicate NamesEnumerations(db: Dbc) {
    db.valueTables != [] || KeptHasTable(db.frames)
  }

  lemma HasTableSnoc(ss: seq<Signal>, s: Signal)
    ensures HasTable(ss + [s]) <==> HasTable(ss) || s.values != map[]
  {
    var ss' := ss + [s];
    if HasTable(ss) {
      var j :| 0 <= j < |ss| && ss[j].values != map[];
      assert ss'[j] == ss[j];
    }
    forall j | 0 <= j < |ss| ensures ss'[j] == ss[j] {
    }
    if s.values != map[] {
      assert ss'[|ss|] == s;
    }
  }

  lemma KeptHasTableSnoc(frames: seq<Frame>, f: Frame)
    ensures KeptHasTable(frames + [f]) <==> KeptHasTable(frames) || (FrameKept(f.name, None) && HasTable(f.signals))
  {
    var frames' := frames + [f];
    if KeptHasTable(frames) {
      var i :| 0 <= i < |frames| && FrameKept(frames[i].name, None) && HasTable(frames[i].signals);
      assert frames'[i] == frames[i];
    }
    forall i | 0 <= i < |frames| ensures frames'[i] == frames[i] {
    }
    if FrameKept(f.name, None) && HasTable(f.signals) {
      assert frames'[|frames|] == f;
    }
  }

  /** With nothing registered and no configuration, the signals go through
      exactly when none has a value table, and then nothing changes. */
  lemma {:induction false} UnconfiguredSignals(st: EnumState, ss: seq<Signal>)
    requires st.registry == []
    ensures var r := ResolveSignals(st, ss, None);
      && (r.Err? <==> HasTable(ss))
      && (r.Ok? ==> r.value.0 == st)
    decreases |ss|
  {
    if ss != [] {
      var init, s := ss[..|ss| - 1], ss[|ss| - 1];
      UnconfiguredSignals(st, init);
      assert FirstMatch(st.registry, s.values) == None;
      assert !FoundNamed(st.registry, s.values);
      HasTableSnoc(init, s);
      LastSplit(ss);
      if ResolveSignals(st, init, None).Ok? {
        var p := ResolveSignals(st, init, None).value;
        assert p.0 == st;
        assert ResolveSignal(st, s, None).Ok? <==> s.values == map[];
      }
    }
  }

  /** With nothing registered and no configuration, the frames go through
      exactly when no kept message has a signal with a value table. */
  lemma {:induction false} UnconfiguredFrames(st: EnumState, frames: seq<Frame>)
    requires st.registry == []
    ensures var r := BuildFrames(st, frames, None);
      && (r.Err? <==> KeptHasTable(frames))
      && (r.Ok? ==> r.value.0 == st)
    decreases |frames|
  {
    if frames != [] {
      var init, f := frames[..|frames| - 1], frames[|frames| - 1];
      UnconfiguredFrames(st, init);
      UnconfiguredSignals(st, f.signals);
      KeptHasTableSnoc(init, f);
      LastSplit(frames);
    }
  }

  /** Without a configuration the pass fails exactly when an enumeration
      has to be named: at the first table name in the renaming loop, or
      at the first signal with a value table in a kept message. */
  lemma MissingConfiguration(db: Dbc)
    requires UniqueNames(db.valueTables)
    ensures CreateBusEntries(db, None).Err? <==> NamesEnumerations(db)
  {
    if db.valueTables == [] {
      assert Names(db.valueTables) == [];
      UnconfiguredFrames(EnumState([], []), db.frames);
    }
  }

  /** The loop over `message.signals` in `create_bus_entries_from_dbc`:
      the element of each signal, with its value table looked up, named,
      registered and exported as needed. */
  method ResolveMessageSignals(reg0: Registry, exports0: Registry, signals: seq<Signal>, conf: Option<Config>)
    returns (r: Result<(EnumState, seq<ElementDict>), DbcError>)
    ensures r == ResolveSignals(EnumState(reg0, exports0), signals, conf)
  {
    var reg, exports, elements := reg0, exports0, [];
    ghost var st1 := EnumState(reg0, exports0);
    for j := 0 to |signals|
      invariant ResolveSignals(st1, signals[..j], conf) == Ok((EnumState(reg, exports), elements))
    {
      var s := signals[j];
      assert signals[..j + 1][..j] == signals[..j];
      var dataType;
      if s.values == map[] {
        dataType := ProposeDataType(s);
      } else {
        var found := FindRegisteredName(reg, s.values);
        var name;
        if found.Some? && found.value != "" {
          name := found.value;
        } else {
          if conf.None? {
            // `conf['enum_prefix']` on None
            ResolveSignalsErrStays(st1, signals, j + 1, conf);
            return Err(ConfigurationMissing);
          }
          name := EnumNameProc(s.name, conf.value.enumPrefix);
          reg := Put(reg, name, s.values);
        }
        dataType := "Enum: " + name;
        if !EnumInExport(exports, name) {
          exports := exports + [(name, s.values)];
        }
      }
      elements := elements + [SignalElement(s, dataType)];
    }
    assert signals[..|signals|] == signals;
    return Ok((EnumState(reg, exports), elements));
  }

  /** The final loop over `enum_export`: every exported table is sanitized
      in place, names and order kept. */
  method SanitizeExports(raw: Registry) returns (exports: Registry)
    ensures exports == SanitizedExports(raw)
  {
    exports := raw;
    for i := 0 to |exports|
      invariant |exports| == |raw|
      invariant forall j | 0 <= j < i :: exports[j] == (raw[j].0, SanitizedTable(raw[j].1))
      invariant forall j | i <= j < |raw| :: exports[j] == raw[j]
    {
      var t := SanitizeTable(exports[i].1);
      exports := exports[i := (exports[i].0, t)];
    }
  }

  /** `create_bus_entries_from_dbc` on a loaded matrix. */
  method CreateBusEntriesFromDbc(db: Dbc, conf: Option<Config>) returns (r: Result<(seq<BusEntry>, Registry), DbcError>)
    requires UniqueNames(db.valueTables)
    ensures r == CreateBusEntries(db, conf)
  {
    var renamed := CanonicalizeTableNames(db.valueTables, conf);
    if renamed.Err? {
      return Err(renamed.error);
    }
    var reg := renamed.value;
    ghost var st0 := EnumState(reg, []);
    var exports: Registry := [];
    var buses: seq<BusEntry> := [];
    for i := 0 to |db.frames|
      invariant BuildFrames(st0, db.frames[..i], conf) == Ok((EnumState(reg, exports), buses))
    {
      var f := db.frames[i];
      assert db.frames[..i + 1][..i] == db.frames[..i];
      if !StartsWith(f.name, "VECTOR__INDEPENDENT_SIG") && !(conf.Some? && conf.value.msgs != [] && f.name !in conf.value.msgs) {
        var resolved := ResolveMessageSignals(reg, exports, f.signals, conf);
        if resolved.Err? {
          BuildFramesErrStays(st0, db.frames, i + 1, conf);
          return Err(resolved.error);
        }
        var elements;
        reg, exports, elements := resolved.value.0.registry, resolved.value.0.exports, resolved.value.1;
        elements := SortByName(elements);
        if "IsMsgAvl" !in ElementNames(elements) {
          elements := [AVAILABILITY] + elements;
        }
        buses := buses + [(BusName(f.name), elements)];
      }
    }
    assert db.frames[..|db.frames|] == db.frames;
    exports := SanitizeExports(exports);
    return Ok((buses, exports));
  }

  // ---------------------------------------------------------------------
  // Worked examples

  lemma DataTypeExamples()
    ensures ProposeDataType(Signal("S", 12, false, Some(1.0), Some(0.0), None, None, map[])) == "uint16"
    ensures ProposeDataType(Signal("S", 20, true, Some(0.5), Some(0.0), None, None, map[])) == "single"
  {
    assert NatToString(16) == "16";
  }

  lemma MissingLabelExample()
    ensures ExportLabel(5, None) == "VALUE_5"
  {
    ExportLabelProperties(5, None);
    assert NatToString(5) == "5";
  }

  lemma LeadingDigitLabelExample()
    ensures ExportLabel(5, Some("0x5")) == "E_0x5"
  {
    assert !NeedsFallback(Some("0x5")) by {
      assert !IsSpaceChar("0x5"[0]);
    }
    assert SubstituteNonIdent("0x5") == "0x5";
  }

  lemma PlaceholderLabelExample()
    ensures ExportLabel(3, Some(PLACEHOLDER + " 0x3")) == "VALUE_3"
  {
    assert (PLACEHOLDER + " 0x3")[..|PLACEHOLDER|] == PLACEHOLDER;
    ExportLabelProperties(3, Some(PLACEHOLDER + " 0x3"));
    assert NatToString(3) == "3";
  }

  /** A signal of the examples: eight unsigned bits, no scaling. */
  function ExampleSignal(name: string, t: ValueTable): Signal {
    Signal(name, 8, false, None, None, None, None, t)
  }

  const EXAMPLE_CONF: Option<Config> := Some(Config("", []))

  lemma CollisionFirst(t: ValueTable)
    requires t != map[]
    ensures ResolveSignal(EnumState([], []), ExampleSignal("A", t), EXAMPLE_CONF)
      == Ok(Resolution(EnumState([("A_enum", t)], [("A_enum", t)]), SignalElement(ExampleSignal("A", t), "Enum: A_enum")))
  {
    assert EnumNameProc("A", "") == "A_enum";
    assert EnumName("A", EXAMPLE_CONF) == Ok("A_enum");
    assert !FoundNamed([], t);
    assert Put([], "A_enum", t) == [("A_enum", t)];
    assert !EnumInExport([], "A_enum");
    var none: Registry := [];
    assert Export(none, "A_enum", t) == none + [("A_enum", t)] == [("A_enum", t)];
    assert "Enum: " + "A_enum" == "Enum: A_enum";
  }

  lemma CollisionSecond(t: ValueTable, t2: ValueTable)
    requires t2 != map[] && t != t2
    ensures ResolveSignal(EnumState([("A_enum", t)], [("A_enum", t)]), ExampleSignal("A", t2), EXAMPLE_CONF)
      == Ok(Resolution(EnumState([("A_enum", t2)], [("A_enum", t)]), SignalElement(ExampleSignal("A", t2), "Enum: A_enum")))
  {
    assert EnumNameProc("A", "") == "A_enum";
    assert EnumName("A", EXAMPLE_CONF) == Ok("A_enum");
    assert FirstMatch([("A_enum", t)], t2) == None;
    assert !FoundNamed([("A_enum", t)], t2);
    assert Put([("A_enum", t)], "A_enum", t2) == [("A_enum", t2)];
    assert Names([("A_enum", t)]) == ["A_enum"];
    assert EnumInExport([("A_enum", t)], "A_enum");
    assert Export([("A_enum", t)], "A_enum", t2) == [("A_enum", t)];
    assert "Enum: " + "A_enum" == "Enum: A_enum";
  }

  lemma CollisionThird(t: ValueTable, t2: ValueTable)
    requires t != map[] && t != t2
    ensures ResolveSignal(EnumState([("A_enum", t2)], [("A_enum", t)]), ExampleSignal("B", t), EXAMPLE_CONF).Ok?
    ensures var r := ResolveSignal(EnumState([("A_enum", t2)], [("A_enum", t)]), ExampleSignal("B", t), EXAMPLE_CONF).value;
      r.element.dataType == "Enum: B_enum" && r.state.exports == [("A_enum", t), ("B_enum", t)]
  {
    assert EnumNameProc("B", "") == "B_enum";
    assert EnumName("B", EXAMPLE_CONF) == Ok("B_enum");
    assert FirstMatch([("A_enum", t2)], t) == None;
    assert !FoundNamed([("A_enum", t2)], t);
    assert Names([("A_enum", t)]) == ["A_enum"];
    assert "B_enum" != "A_enum";
    assert !EnumInExport([("A_enum", t)], "B_enum");
    assert "Enum: " + "B_enum" == "Enum: B_enum";
  }

  /** Three messages M1, M2 and M3 whose signals are A with table `t`, A
      with a different table `t2`, and B with `t` again. The registry has
      `A_enum` mapped to `t2` once M2 is done, so B does not find `t` and
      gets an enumeration of its own: M1 and M3 refer to different names
      for the same table, M2 refers to `A_enum` although the table exported
      under that name is `t`, and `t2` is never exported. */
  lemma InlineTableCollision(t: ValueTable, t2: ValueTable)
    requires t != map[] && t2 != map[] && t != t2
    ensures var r1 := ResolveSignal(EnumState([], []), ExampleSignal("A", t), EXAMPLE_CONF);
      r1.Ok? &&
      var r2 := ResolveSignal(r1.value.state, ExampleSignal("A", t2), EXAMPLE_CONF);
      r2.Ok? &&
      var r3 := ResolveSignal(r2.value.state, ExampleSignal("B", t), EXAMPLE_CONF);
      && r3.Ok?
      && r1.value.element.dataType == "Enum: A_enum"
      && r2.value.element.dataType == "Enum: A_enum"
      && r3.value.element.dataType == "Enum: B_enum"
      && r3.value.state.exports == [("A_enum", t), ("B_enum", t)]
  {
    CollisionFirst(t);
    CollisionSecond(t, t2);
    CollisionThird(t, t2);
  }
}
