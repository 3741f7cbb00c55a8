/**
 The selection of the workspace (frontend/src/app/useDocumentSelection.ts) and
 the entry keys it is made of (frontend/src/app/entryKey.ts). A hook call sees
 the state left by the previous one.
*/
module Selection {
  import opened Common

  // ---------- Entry keys ----------

  function SplitAt(key: string): (parts: (string, Option<string>))
    ensures parts.1.None? ==> parts.0 == key
    ensures parts.1.Some? ==> key == parts.0 + ":" + parts.1.value
  {
    if key == "" then ("", None)
    else if key[0] == ':' then ("", Some(key[1..]))
    else
      var (head, tail) := SplitAt(key[1..]);
      ([key[0]] + head, tail)
  }

  predicate IsDocumentEntry(key: string) {
    SplitAt(key).0 == "document"
  }

  predicate IsFolderEntry(key: string) {
    SplitAt(key).0 == "folder"
  }

  /** Everything after the first separator. */
  function EntryId(key: string): string {
    match SplitAt(key).1 case None => "" case Some(id) => id
  }

  function DocumentKey(id: string): string {
    "document" + ":" + id
  }

  function FolderKey(id: string): string {
    "folder" + ":" + id
  }

  lemma {:induction false} SplitPrinted(kind: string, id: string)
    requires ':' !in kind
    ensures SplitAt(kind + ":" + id) == (kind, Some(id))
  {
    var key := kind + ":" + id;
    if kind == "" {
      assert key[0] == ':' && key[1..] == id;
    } else {
      assert key[0] == kind[0] && key[1..] == kind[1..] + ":" + id;
      SplitPrinted(kind[1..], id);
      assert kind == [kind[0]] + kind[1..];
    }
  }

  /** Parsing a printed key gives its kind and id; printing a parsed key with an id gives the key. */
  lemma EntryKeyRoundTrip(id: string, key: string)
    ensures IsDocumentEntry(DocumentKey(id)) && EntryId(DocumentKey(id)) == id && !IsFolderEntry(DocumentKey(id))
    ensures IsFolderEntry(FolderKey(id)) && EntryId(FolderKey(id)) == id && !IsDocumentEntry(FolderKey(id))
    ensures IsDocumentEntry(key) && EntryId(key) != "" ==> DocumentKey(EntryId(key)) == key
    ensures IsFolderEntry(key) && EntryId(key) != "" ==> FolderKey(EntryId(key)) == key
  {
    SplitPrinted("document", id);
    SplitPrinted("folder", id);
  }

  // ---------- Lists without repetition ----------

  /** Appends each element that is not there yet. */
  function AppendNew(base: seq<string>, xs: seq<string>): seq<string>
    decreases |xs|
  {
    if xs == [] then base
    else AppendNew(if xs[0] in base then base else base + [xs[0]], xs[1..])
  }

  lemma {:induction false} AppendNewFacts(base: seq<string>, xs: seq<string>)
    ensures base <= AppendNew(base, xs)
    ensures NoDup(base) ==> NoDup(AppendNew(base, xs))
    ensures forall x :: x in AppendNew(base, xs) <==> x in base || x in xs
    decreases |xs|
  {
    if xs != [] {
      AppendNewFacts(if xs[0] in base then base else base + [xs[0]], xs[1..]);
      assert forall x :: x in xs <==> x == xs[0] || x in xs[1..];
    }
  }

  function Distinct(xs: seq<string>): seq<string> {
    AppendNew([], xs)
  }

  // ---------- The order of selection ----------

  /** updateSelectionOrder: what stays keeps its place, what was touched moves to the end, what is new follows. */
  function NextOrder(order: seq<string>, next: seq<string>, interacted: seq<string>): seq<string> {
    var previous := Filter(order, x => x in next);
    var touched := Distinct(interacted);
    var base := Filter(previous, x => x !in touched);
    AppendNew(AppendNew(base, Filter(touched, x => x in next)), next)
  }

  ghost predicate Permutation(a: seq<string>, b: seq<string>) {
    NoDup(a) && NoDup(b) && forall x :: x in a <==> x in b
  }

  /** The entries that were ordered before, stay selected and were not touched, in their old order. */
  ghost function Untouched(order: seq<string>, next: seq<string>, interacted: seq<string>): seq<string> {
    Filter(order, x => x in next && x !in interacted)
  }

  /** The new order is a permutation of the selection that begins with the untouched entries in their old order. */
  lemma NextOrderTheorem(order: seq<string>, next: seq<string>, interacted: seq<string>)
    requires NoDup(order) && NoDup(next)
    ensures Permutation(NextOrder(order, next, interacted), next)
    ensures Untouched(order, next, interacted) <= NextOrder(order, next, interacted)
    ensures forall x :: x in order && x in next && x !in interacted ==> x in Untouched(order, next, interacted)
  {
    var previous := Filter(order, x => x in next);
    var touched := Distinct(interacted);
    var base := Filter(previous, x => x !in touched);
    AppendNewFacts([], interacted);
    FilterNoDup(order, x => x in next);
    FilterNoDup(previous, x => x !in touched);
    FilterTwice(order, x => x in next, x => x !in touched, x => x in next && x !in interacted);
    var first := AppendNew(base, Filter(touched, x => x in next));
    AppendNewFacts(base, Filter(touched, x => x in next));
    AppendNewFacts(first, next);
  }

  // ---------- State and calls ----------

  datatype Env = Env(visible: set<string>, navigable: seq<string>)

  datatype State = State(
    selected: seq<string>, order: seq<string>, anchor: Option<string>,
    focusedDocument: Option<string>, focusedEntry: Option<string>)

  predicate Truthy(s: Option<string>) {
    s.Some? && s.value != ""
  }

  /** The visible form of a key, if it has one. */
  function Canonical(visible: set<string>, key: string): Option<string> {
    if key == "" then None
    else
      var canonical :=
        if key in visible then key
        else if IsDocumentEntry(key) then (if EntryId(key) == "" then "" else DocumentKey(EntryId(key)))
        else if IsFolderEntry(key) then (if EntryId(key) == "" then "" else FolderKey(EntryId(key)))
        else "";
      if canonical == "" || canonical !in visible then None else Some(canonical)
  }

  /** Looking the key up again by kind and id never finds a key that was not visible as given. */
  lemma CanonicalIsVisible(visible: set<string>, key: string)
    ensures Canonical(visible, key) == if key != "" && key in visible then Some(key) else None
  {
    EntryKeyRoundTrip("", key);
  }

  function UniqueVisible(visible: set<string>, keys: seq<string>, unique: seq<string>): seq<string> {
    if keys == [] then unique
    else
      match Canonical(visible, keys[0])
      case None => UniqueVisible(visible, keys[1..], unique)
      case Some(key) => UniqueVisible(visible, keys[1..], if key in unique then unique else unique + [key])
  }

  lemma UniqueVisibleStep(visible: set<string>, keys: seq<string>, i: nat, unique: seq<string>)
    requires i < |keys|
    ensures var canonical := Canonical(visible, keys[i]);
            UniqueVisible(visible, keys[i..], unique)
            == UniqueVisible(visible, keys[i + 1..],
                             if canonical.None? || canonical.value in unique then unique else unique + [canonical.value])
  {
    assert keys[i..][1..] == keys[i + 1..];
  }

  lemma {:induction false} UniqueVisibleFacts(visible: set<string>, keys: seq<string>, unique: seq<string>)
    requires NoDup(unique)
    ensures NoDup(UniqueVisible(visible, keys, unique))
    ensures forall x :: x in UniqueVisible(visible, keys, unique) <==> x in unique || (x in keys && x != "" && x in visible)
    decreases |keys|
  {
    if keys != [] {
      CanonicalIsVisible(visible, keys[0]);
      var next := match Canonical(visible, keys[0])
                  case None => unique
                  case Some(key) => if key in unique then unique else unique + [key];
      UniqueVisibleFacts(visible, keys[1..], next);
      assert forall x :: x in keys <==> x == keys[0] || x in keys[1..];
    }
  }

  /** The last document entry of the list. */
  function LastDocument(keys: seq<string>): Option<string> {
    if keys == [] then None
    else if IsDocumentEntry(keys[|keys| - 1]) then Some(keys[|keys| - 1])
    else LastDocument(keys[..|keys| - 1])
  }

  function NextFocus(focused: Option<string>, unique: seq<string>, anchor: Option<string>): Option<string> {
    if Truthy(focused) && DocumentKey(focused.value) in unique then focused
    else if Truthy(anchor) && IsDocumentEntry(anchor.value) then Some(EntryId(anchor.value))
    else
      match LastDocument(unique)
      case None => None
      case Some(key) => Some(EntryId(key))
  }

  function NextAnchor(anchor: Option<string>, unique: seq<string>, resolved: Option<string>): Option<string> {
    if Truthy(resolved) then resolved
    else if unique == [] then None
    else if !Truthy(anchor) || anchor.value !in unique then Some(unique[|unique| - 1])
    else anchor
  }

  function Resolved(anchor: Option<string>, unique: seq<string>): Option<string> {
    if Truthy(anchor) && anchor.value !in unique then None else anchor
  }

  function Apply(s: State, env: Env, keys: seq<string>, anchor: Option<string>, interacted: seq<string>): State {
    var unique := UniqueVisible(env.visible, keys, []);
    var resolved := Resolved(anchor, unique);
    State(unique, NextOrder(s.order, unique, interacted), NextAnchor(s.anchor, unique, resolved),
          NextFocus(s.focusedDocument, unique, resolved), s.focusedEntry)
  }

  function Clear(s: State, env: Env): State {
    Apply(s.(focusedEntry := None), env, [], None, [])
  }

  function IndexOf(keys: seq<string>, key: string): (i: int)
    ensures -1 <= i < |keys| && (i >= 0 ==> keys[i] == key) && (i == -1 <==> key !in keys)
  {
    if keys == [] then -1
    else if keys[0] == key then 0
    else
      var i := IndexOf(keys[1..], key);
      if i == -1 then -1 else i + 1
  }

  /** The navigable entries from the anchor to the target, either way round. */
  function Range(navigable: seq<string>, anchor: string, target: string): seq<string>
    requires anchor in navigable && target in navigable
  {
    var a, t := IndexOf(navigable, anchor), IndexOf(navigable, target);
    if a <= t then navigable[a..t + 1] else navigable[t..a + 1]
  }

  datatype Click = Click(keys: seq<string>, shift: bool, additive: bool)

  datatype Choice = Choice(next: seq<string>, interacted: seq<string>, anchor: string)

  /** The clicked entry, and those that were not selected before. */
  function IsTouched(target: string, selected: seq<string>): string -> bool {
    x => x == target || x !in selected
  }

  function IsOther(target: string): string -> bool {
    x => x != target
  }

  function WithKey(keys: seq<string>, key: string): seq<string> {
    if key in keys then keys else keys + [key]
  }

  /** A shift-click on one entry: the range from the anchor when both ends can be navigated to, else the entry. */
  function RangeChoice(selected: seq<string>, env: Env, anchor: string, key: string): Choice {
    if anchor in env.navigable && key in env.navigable then
      var range := Range(env.navigable, anchor, key);
      Choice(range, WithKey(Filter(range, IsTouched(key, selected)), key), anchor)
    else Choice([key], [key], anchor)
  }

  /** One entry is toggled, several are added. */
  function AdditiveChoice(selected: seq<string>, valid: seq<string>): Choice
    requires valid != []
  {
    var last := valid[|valid| - 1];
    if |valid| == 1 then
      if last in selected then Choice(Filter(selected, IsOther(last)), [], last) else Choice(selected + [last], [last], last)
    else Choice(AppendNew(Distinct(selected), valid), valid, last)
  }

  /** The anchor a range starts from: the one in force, else the entry selected last, else the clicked one. */
  function RangeAnchor(s: State, shift: bool, last: string): string {
    if Truthy(s.anchor) then s.anchor.value
    else if shift && s.selected != [] && s.selected[|s.selected| - 1] != "" then s.selected[|s.selected| - 1]
    else last
  }

  /** What a click on valid keys selects, which entries count as touched, and the anchor it asks for. */
  function Choose(s: State, env: Env, valid: seq<string>, shift: bool, additive: bool): Choice
    requires valid != []
  {
    var last := valid[|valid| - 1];
    if shift && |valid| == 1 then RangeChoice(s.selected, env, RangeAnchor(s, shift, last), last)
    else if additive then AdditiveChoice(s.selected, valid)
    else Choice(valid, valid, last)
  }

  function ValidKeys(env: Env, keys: seq<string>): seq<string> {
    Filter(keys, x => x != "" && x in env.visible)
  }

  function Handle(s: State, env: Env, click: Click): State {
    var valid := ValidKeys(env, click.keys);
    if valid == [] then s
    else
      var focused := s.(focusedEntry := Some(valid[|valid| - 1]));
      var choice := Choose(focused, env, valid, click.shift, click.additive);
      Apply(focused, env, choice.next, Some(choice.anchor), choice.interacted)
  }

  function Promote(s: State, document: string): State {
    if document == "" || DocumentKey(document) !in s.selected then s
    else s.(order := NextOrder(s.order, s.selected, [DocumentKey(document)]))
  }

  // ---------- The hook ----------

  class SelectionHook {
    var state: State
    var env: Env

    constructor (initialEntries: seq<string>)
      ensures state == State(initialEntries, initialEntries, None, None, None) && env == Env({}, [])
    {
      state := State(initialEntries, initialEntries, None, None, None);
      env := Env({}, []);
    }

    method Configure(visible: Option<set<string>>, navigable: Option<seq<string>>)
      modifies this`env
      ensures env.visible == if visible.Some? then visible.value else old(env).visible
      ensures env.navigable == if navigable.Some? then navigable.value else old(env).navigable
    {
      if visible.Some? {
        env := env.(visible := visible.value);
      }
      if navigable.Some? {
        env := env.(navigable := navigable.value);
      }
    }

    method UpdateSelectionOrder(next: seq<string>, interacted: seq<string>)
      modifies this`state
      ensures state == old(state).(order := NextOrder(old(state).order, next, interacted))
    {
      var touched := Distinct(interacted);
      var previous := Filter(state.order, x => x in next);
      var result := Filter(previous, x => x !in touched);
      ghost var base := result;
      var kept := Filter(touched, x => x in next);
      for i := 0 to |kept|
        invariant AppendNew(base, kept) == AppendNew(result, kept[i..])
      {
        assert kept[i..][1..] == kept[i + 1..];
        if kept[i] !in result {
          result := result + [kept[i]];
        }
      }
      for i := 0 to |next|
        invariant AppendNew(AppendNew(base, kept), next) == AppendNew(result, next[i..])
      {
        assert next[i..][1..] == next[i + 1..];
        if next[i] !in result {
          result := result + [next[i]];
        }
      }
      state := state.(order := result);
    }

    method ApplySelection(keys: seq<string>, anchor: Option<string>, interacted: seq<string>)
      modifies this`state
      ensures state == Apply(old(state), env, keys, anchor, interacted)
    {
      var unique: seq<string> := [];
      assert keys[0..] == keys;
      for i := 0 to |keys|
        invariant UniqueVisible(env.visible, keys, []) == UniqueVisible(env.visible, keys[i..], unique)
        invariant state == old(state)
      {
        UniqueVisibleStep(env.visible, keys, i, unique);
        var canonical := Canonical(env.visible, keys[i]);
        if canonical.Some? && canonical.value !in unique {
          unique := unique + [canonical.value];
        }
      }
      assert keys[|keys|..] == [];
      var resolved := anchor;
      if Truthy(resolved) && resolved.value !in unique {
        resolved := None;
      }
      var focused := state.focusedDocument;
      state := state.(selected := unique);
      UpdateSelectionOrder(unique, interacted);
      state := state.(focusedDocument := NextFocus(focused, unique, resolved));
      if Truthy(resolved) {
        state := state.(anchor := resolved);
      } else if unique == [] {
        state := state.(anchor := None);
      } else if !Truthy(state.anchor) || state.anchor.value !in unique {
        state := state.(anchor := Some(unique[|unique| - 1]));
      }
    }

    method ClearSelection()
      modifies this`state
      ensures state == Clear(old(state), env)
    {
      state := state.(focusedEntry := None);
      ApplySelection([], None, []);
    }

    /** The branch of a shift-click on one entry. */
    method SelectRange(anchorKey: string, entryKey: string) returns (nextKeys: seq<string>, interacted: seq<string>)
      ensures Choice(nextKeys, interacted, anchorKey) == RangeChoice(state.selected, env, anchorKey, entryKey)
    {
      var navigable := env.navigable;
      var anchorIndex, targetIndex := IndexOf(navigable, anchorKey), IndexOf(navigable, entryKey);
      if anchorIndex == -1 || targetIndex == -1 {
        return [entryKey], [entryKey];
      }
      var start, end := anchorIndex, targetIndex;
      if anchorIndex > targetIndex {
        start, end := targetIndex, anchorIndex;
      }
      nextKeys := navigable[start..end + 1];
      assert nextKeys == Range(navigable, anchorKey, entryKey);
      interacted := Filter(nextKeys, IsTouched(entryKey, state.selected));
      ghost var touched := interacted;
      if entryKey !in interacted {
        interacted := interacted + [entryKey];
      }
      assert interacted == WithKey(touched, entryKey);
    }

    /** The branch of a click with the additive key. */
    method SelectAdditive(valid: seq<string>) returns (nextKeys: seq<string>, interacted: seq<string>)
      requires valid != []
      ensures Choice(nextKeys, interacted, valid[|valid| - 1]) == AdditiveChoice(state.selected, valid)
    {
      var previous := state.selected;
      if |valid| == 1 {
        var entryKey := valid[0];
        if entryKey !in previous {
          return previous + [entryKey], [entryKey];
        }
        return Filter(previous, IsOther(entryKey)), [];
      }
      nextKeys := Distinct(previous);
      for i := 0 to |valid|
        invariant AppendNew(Distinct(previous), valid) == AppendNew(nextKeys, valid[i..])
      {
        assert valid[i..][1..] == valid[i + 1..];
        if valid[i] !in nextKeys {
          nextKeys := nextKeys + [valid[i]];
        }
      }
      interacted := valid;
    }

    /** The anchor and the branches of a click on the valid keys. */
    method ChooseEntries(valid: seq<string>, shift: bool, additive: bool)
      returns (nextKeys: seq<string>, interacted: seq<string>, anchorKey: string)
      requires valid != []
      ensures Choice(nextKeys, interacted, anchorKey) == Choose(state, env, valid, shift, additive)
    {
      var lastKey := valid[|valid| - 1];
      anchorKey := "";
      if Truthy(state.anchor) {
        anchorKey := state.anchor.value;
      }
      if anchorKey == "" && shift && state.selected != [] {
        anchorKey := state.selected[|state.selected| - 1];
      }
      if anchorKey == "" {
        anchorKey := lastKey;
      }
      assert anchorKey == RangeAnchor(state, shift, lastKey);
      if shift && |valid| == 1 {
        nextKeys, interacted := SelectRange(anchorKey, lastKey);
      } else if additive {
        nextKeys, interacted := SelectAdditive(valid);
        anchorKey := lastKey;
      } else {
        nextKeys, interacted, anchorKey := valid, valid, lastKey;
      }
    }

    method HandleEntrySelection(click: Click)
      modifies this`state
      ensures state == Handle(old(state), env, click)
      ensures ClickLeaves(old(state), env, click, state)
    {
      var valid := ValidKeys(env, click.keys);
      if |valid| == 0 {
        return;
      }
      state := state.(focusedEntry := Some(valid[|valid| - 1]));
      var nextKeys, interacted, anchorKey := ChooseEntries(valid, click.shift, click.additive);
      ApplySelection(nextKeys, Some(anchorKey), interacted);
      HandleIsCoherent(old(state), env, click);
    }

    method PromoteSelectionOrder(document: string)
      modifies this`state
      ensures state == Promote(old(state), document)
    {
      if document != "" && DocumentKey(document) in state.selected {
        UpdateSelectionOrder(state.selected, [DocumentKey(document)]);
      }
    }
  }

  // ---------- What every call keeps ----------

  /** Visible document keys carry an id. */
  ghost predicate WellFormedKeys(visible: set<string>) {
    forall k :: k in visible && IsDocumentEntry(k) ==> EntryId(k) != ""
  }

  /** The selection, its order, its anchor and its focus agree; `visible` was in force when it was made. */
  ghost predicate Coherent(s: State, visible: set<string>) {
    && NoDup(s.selected) && (forall x :: x in s.selected ==> x in visible && x != "")
    && Permutation(s.order, s.selected)
    && (s.anchor.None? <==> s.selected == [])
    && (s.anchor.Some? ==> s.anchor.value in s.selected)
    && (WellFormedKeys(visible) ==> FocusOk(s))
  }

  /** The focused document is selected, and there is one exactly when a document is selected. */
  ghost predicate FocusOk(s: State) {
    && (s.focusedDocument.Some? ==> s.focusedDocument.value != "" && DocumentKey(s.focusedDocument.value) in s.selected)
    && (s.focusedDocument.None? <==> forall x :: x in s.selected ==> !IsDocumentEntry(x))
  }

  lemma {:induction false} LastDocumentFacts(keys: seq<string>)
    ensures LastDocument(keys).None? <==> forall x :: x in keys ==> !IsDocumentEntry(x)
    ensures LastDocument(keys).Some? ==> LastDocument(keys).value in keys && IsDocumentEntry(LastDocument(keys).value)
    decreases |keys|
  {
    if keys != [] {
      LastDocumentFacts(keys[..|keys| - 1]);
      assert forall x :: x in keys <==> x == keys[|keys| - 1] || x in keys[..|keys| - 1];
    }
  }

  lemma NextFocusOk(s: State, visible: set<string>, focused: Option<string>, resolved: Option<string>)
    requires WellFormedKeys(visible) && forall x :: x in s.selected ==> x in visible && x != ""
    requires resolved.Some? && resolved.value != "" ==> resolved.value in s.selected
    requires s.focusedDocument == NextFocus(focused, s.selected, resolved)
    ensures FocusOk(s)
  {
    LastDocumentFacts(s.selected);
    if Truthy(focused) && DocumentKey(focused.value) in s.selected {
      EntryKeyRoundTrip(focused.value, "");
    } else if Truthy(resolved) && IsDocumentEntry(resolved.value) {
      EntryKeyRoundTrip("", resolved.value);
    } else if LastDocument(s.selected).Some? {
      EntryKeyRoundTrip("", LastDocument(s.selected).value);
    }
  }

  /** Any selection call makes the state coherent, whatever it was, if the order had no repetition. */
  lemma ApplyIsCoherent(s: State, env: Env, keys: seq<string>, anchor: Option<string>, interacted: seq<string>)
    requires NoDup(s.order)
    ensures Coherent(Apply(s, env, keys, anchor, interacted), env.visible)
  {
    var s' := Apply(s, env, keys, anchor, interacted);
    UniqueVisibleFacts(env.visible, keys, []);
    NextOrderTheorem(s.order, s'.selected, interacted);
    if WellFormedKeys(env.visible) {
      NextFocusOk(s', env.visible, s.focusedDocument, Resolved(anchor, s'.selected));
    }
  }

  /** A click on no visible key changes nothing; any other leaves everything in agreement and focuses the last one. */
  ghost predicate ClickLeaves(s: State, env: Env, click: Click, s': State) {
    var valid := ValidKeys(env, click.keys);
    if valid == [] then s' == s
    else s'.focusedEntry == Some(valid[|valid| - 1]) && (NoDup(s.order) ==> Coherent(s', env.visible))
  }

  lemma HandleIsCoherent(s: State, env: Env, click: Click)
    ensures ClickLeaves(s, env, click, Handle(s, env, click))
  {
    var valid := ValidKeys(env, click.keys);
    if valid != [] {
      var focused := s.(focusedEntry := Some(valid[|valid| - 1]));
      var choice := Choose(focused, env, valid, click.shift, click.additive);
      assert Handle(s, env, click) == Apply(focused, env, choice.next, Some(choice.anchor), choice.interacted);
      if NoDup(s.order) {
        ApplyIsCoherent(focused, env, choice.next, Some(choice.anchor), choice.interacted);
      }
    }
  }

  datatype Call =
    | ApplyCall(env: Env, keys: seq<string>, anchor: Option<string>, interacted: seq<string>)
    | HandleCall(env: Env, click: Click)
    | ClearCall(env: Env)
    | PromoteCall(document: string)

  function Perform(s: State, call: Call): State {
    match call
    case ApplyCall(env, keys, anchor, interacted) => Apply(s, env, keys, anchor, interacted)
    case HandleCall(env, click) => Handle(s, env, click)
    case ClearCall(env) => Clear(s, env)
    case PromoteCall(document) => Promote(s, document)
  }

  /** The visible set in force when the selection was last made. */
  function InForce(visible: set<string>, call: Call): set<string> {
    match call
    case ApplyCall(env, _, _, _) => env.visible
    case HandleCall(env, click) => if ValidKeys(env, click.keys) == [] then visible else env.visible
    case ClearCall(env) => env.visible
    case PromoteCall(_) => visible
  }

  lemma PerformKeepsCoherent(s: State, visible: set<string>, call: Call)
    requires Coherent(s, visible)
    ensures Coherent(Perform(s, call), InForce(visible, call))
  {
    match call
    case ApplyCall(env, keys, anchor, interacted) => ApplyIsCoherent(s, env, keys, anchor, interacted);
    case HandleCall(env, click) => HandleIsCoherent(s, env, click);
    case ClearCall(env) => ApplyIsCoherent(s.(focusedEntry := None), env, [], None, []);
    case PromoteCall(document) =>
      if document != "" && DocumentKey(document) in s.selected {
        NextOrderTheorem(s.order, s.selected, [DocumentKey(document)]);
      }
  }

  function PerformAll(s: State, calls: seq<Call>): State
    decreases |calls|
  {
    if calls == [] then s else PerformAll(Perform(s, calls[0]), calls[1..])
  }

  function InForceAll(visible: set<string>, calls: seq<Call>): set<string>
    decreases |calls|
  {
    if calls == [] then visible else InForceAll(InForce(visible, calls[0]), calls[1..])
  }

  /** After every run of calls from an empty selection everything agrees. */
  lemma {:induction false} SelectionStaysCoherent(s: State, visible: set<string>, calls: seq<Call>)
    requires Coherent(s, visible)
    ensures Coherent(PerformAll(s, calls), InForceAll(visible, calls))
    decreases |calls|
  {
    if calls != [] {
      PerformKeepsCoherent(s, visible, calls[0]);
      SelectionStaysCoherent(Perform(s, calls[0]), InForce(visible, calls[0]), calls[1..]);
    }
  }

  /** From the hook's initial state, once a call has replaced any entries given at the start. */
  lemma HookStaysCoherent(initialEntries: seq<string>, calls: seq<Call>)
    requires NoDup(initialEntries)
    requires initialEntries != [] ==> calls != [] && (calls[0].ApplyCall? || calls[0].ClearCall?)
    ensures Coherent(PerformAll(State(initialEntries, initialEntries, None, None, None), calls), InForceAll({}, calls))
  {
    var s := State(initialEntries, initialEntries, None, None, None);
    if initialEntries == [] {
      SelectionStaysCoherent(s, {}, calls);
    } else {
      match calls[0] {
        case ApplyCall(env, keys, anchor, interacted) => ApplyIsCoherent(s, env, keys, anchor, interacted);
        case ClearCall(env) => ApplyIsCoherent(s, env, [], None, []);
      }
      SelectionStaysCoherent(Perform(s, calls[0]), InForce({}, calls[0]), calls[1..]);
    }
  }

  // ---------- Plain and additive clicks ----------

  /** A click without a range replaces the selection; with the additive key one entry is toggled and several are added. */
  lemma ClickSelects(s: State, env: Env, click: Click)
    requires forall x :: x in s.selected ==> x in env.visible && x != ""
    requires ValidKeys(env, click.keys) != [] && !(click.shift && |ValidKeys(env, click.keys)| == 1)
    ensures var valid := ValidKeys(env, click.keys);
            forall x :: x in Handle(s, env, click).selected <==>
                          if !click.additive then x in valid
                          else if |valid| == 1 then (x in s.selected) != (x == valid[0])
                          else x in s.selected || x in valid
    ensures var last := ValidKeys(env, click.keys)[|ValidKeys(env, click.keys)| - 1];
            last in Handle(s, env, click).selected ==> Handle(s, env, click).anchor == Some(last)
  {
    var valid := ValidKeys(env, click.keys);
    var focused := s.(focusedEntry := Some(valid[|valid| - 1]));
    var choice := Choose(focused, env, valid, click.shift, click.additive);
    UniqueVisibleFacts(env.visible, choice.next, []);
    assert forall x :: x in valid ==> x in env.visible && x != "";
    assert valid[|valid| - 1] in valid;
    if click.additive && |valid| > 1 {
      AppendNewFacts([], s.selected);
      AppendNewFacts(Distinct(s.selected), valid);
    }
  }

  // ---------- Chains of shift-clicks ----------

  function ShiftClick(key: string): Click {
    Click([key], true, false)
  }

  /** What a shift-click from anchor a to the key reaches. */
  function Reach(env: Env, a: string, key: string): seq<string> {
    if a in env.navigable && key in env.navigable then Range(env.navigable, a, key) else [key]
  }

  lemma ShiftIsReach(s: State, env: Env, a: string, key: string)
    requires s.anchor == Some(a) && a != "" && key != "" && key in env.visible
    ensures Handle(s, env, ShiftClick(key)).selected == UniqueVisible(env.visible, Reach(env, a, key), [])
    ensures var unique := UniqueVisible(env.visible, Reach(env, a, key), []);
            Handle(s, env, ShiftClick(key)).anchor == NextAnchor(Some(a), unique, Resolved(Some(a), unique))
  {
    assert ValidKeys(env, [key]) == [key];
  }

  /** The clicked entry is always selected, because the range or the entry itself is. */
  lemma ReachHasKey(env: Env, a: string, key: string)
    requires a != "" && key != "" && key in env.visible
    ensures key in UniqueVisible(env.visible, Reach(env, a, key), [])
  {
    UniqueVisibleFacts(env.visible, Reach(env, a, key), []);
    if a in env.navigable && key in env.navigable {
      RangeHasEnds(env.navigable, a, key);
    }
  }

  lemma ShiftSelects(s: State, env: Env, a: string, key: string)
    requires s.anchor == Some(a) && a != "" && key != "" && key in env.visible
    ensures key in Handle(s, env, ShiftClick(key)).selected
    ensures Handle(s, env, ShiftClick(key)).selected == UniqueVisible(env.visible, Reach(env, a, key), [])
    ensures var selected := Handle(s, env, ShiftClick(key)).selected;
            Handle(s, env, ShiftClick(key)).anchor == Some(if a in selected then a else selected[|selected| - 1])
  {
    ShiftIsReach(s, env, a, key);
    ReachHasKey(env, a, key);
  }

  lemma RangeHasEnds(navigable: seq<string>, a: string, key: string)
    requires a in navigable && key in navigable
    ensures a in Range(navigable, a, key) && key in Range(navigable, a, key)
  {
    var i, j := IndexOf(navigable, a), IndexOf(navigable, key);
    var range := Range(navigable, a, key);
    if i <= j {
      assert range[0] == a && range[j - i] == key;
    } else {
      assert range[0] == key && range[i - j] == a;
    }
  }

  /** The anchor is in the range, and both ends can be navigated to. */
  predicate AnchorSurvives(env: Env, a: string, key: string) {
    key == a || (a in env.navigable && key in env.navigable && a in env.visible)
  }

  /** A shift-click keeps the anchor exactly when both ends can be navigated to and the anchor is visible. */
  lemma ShiftKeepsAnchorExactly(s: State, env: Env, a: string, key: string)
    requires s.anchor == Some(a) && a != "" && key != "" && key in env.visible
    ensures Handle(s, env, ShiftClick(key)).anchor == Some(a) <==> AnchorSurvives(env, a, key)
  {
    ShiftSelects(s, env, a, key);
    UniqueVisibleFacts(env.visible, Reach(env, a, key), []);
    var selected := Handle(s, env, ShiftClick(key)).selected;
    assert selected[|selected| - 1] in selected;
    if a in env.navigable && key in env.navigable {
      RangeHasEnds(env.navigable, a, key);
    }
  }

  function ShiftAll(s: State, env: Env, keys: seq<string>): State
    decreases |keys|
  {
    if keys == [] then s else ShiftAll(Handle(s, env, ShiftClick(keys[0])), env, keys[1..])
  }

  /** The same selection and the same anchor; the order of selection may differ. */
  predicate SameChoice(s: State, t: State) {
    s.selected == t.selected && s.anchor == t.anchor
  }

  /** What a shift-click selects depends on the anchor only. */
  lemma ShiftForgets(s: State, t: State, env: Env, a: string, key: string)
    requires s.anchor == Some(a) && t.anchor == Some(a) && a != "" && key != "" && key in env.visible
    ensures SameChoice(Handle(s, env, ShiftClick(key)), Handle(t, env, ShiftClick(key)))
  {
    ShiftSelects(s, env, a, key);
    ShiftSelects(t, env, a, key);
  }

  predicate Clickable(env: Env, keys: seq<string>) {
    forall k :: k in keys ==> k != "" && k in env.visible
  }

  /** A chain of shift-clicks selects what the last of them alone would, and leaves the same anchor. */
  lemma {:induction false} ShiftChain(s: State, env: Env, a: string, keys: seq<string>, last: string)
    requires s.anchor == Some(a) && a != "" && Clickable(env, keys + [last])
    requires forall k :: k in keys ==> AnchorSurvives(env, a, k)
    ensures ShiftAll(s, env, keys).anchor == Some(a)
    ensures SameChoice(Handle(ShiftAll(s, env, keys), env, ShiftClick(last)), Handle(s, env, ShiftClick(last)))
    decreases |keys|
  {
    assert last in keys + [last];
    if keys != [] {
      assert keys[0] in keys + [last];
      assert forall k :: k in keys[1..] + [last] ==> k in keys + [last];
      ShiftKeepsAnchorExactly(s, env, a, keys[0]);
      var s1 := Handle(s, env, ShiftClick(keys[0]));
      ShiftChain(s1, env, a, keys[1..], last);
      ShiftForgets(s1, s, env, a, last);
    }
  }

  // ---------- What a click leaves, entry by entry ----------

  predicate IsVisible(visible: set<string>, key: string) {
    key != "" && key in visible
  }

  /** Of different keys the visible ones are selected, in the order given. */
  lemma {:induction false} UniqueVisibleIsFilter(visible: set<string>, keys: seq<string>, unique: seq<string>)
    requires NoDup(keys) && forall x :: x in keys ==> x !in unique
    ensures UniqueVisible(visible, keys, unique) == unique + Filter(keys, x => IsVisible(visible, x))
    decreases |keys|
  {
    if keys != [] {
      CanonicalIsVisible(visible, keys[0]);
      assert keys[0] !in keys[1..];
      var next := if IsVisible(visible, keys[0]) then unique + [keys[0]] else unique;
      UniqueVisibleIsFilter(visible, keys[1..], next);
    }
  }

  lemma VisibleAreSelected(visible: set<string>, keys: seq<string>)
    requires NoDup(keys)
    ensures UniqueVisible(visible, keys, []) == Filter(keys, x => IsVisible(visible, x))
  {
    UniqueVisibleIsFilter(visible, keys, []);
    var selected := Filter(keys, x => IsVisible(visible, x));
    assert [] + selected == selected;
  }

  lemma {:induction false} IndexIsUnique(keys: seq<string>, i: nat)
    requires NoDup(keys) && i < |keys|
    ensures IndexOf(keys, keys[i]) == i
  {
    var k := IndexOf(keys, keys[i]);
    assert keys[k] == keys[i];
  }

  /** k lies between i and j, whichever comes first. */
  predicate Between(i: int, k: int, j: int) {
    i <= k <= j || j <= k <= i
  }

  lemma RangeIsBetween(navigable: seq<string>, i: nat, j: nat)
    requires NoDup(navigable) && i < |navigable| && j < |navigable|
    ensures var range := Range(navigable, navigable[i], navigable[j]);
            && NoDup(range)
            && (forall x :: x in range <==> exists k :: 0 <= k < |navigable| && Between(i, k, j) && navigable[k] == x)
            && (forall m, n :: 0 <= m < n < |range| ==> Precedes(navigable, range[m], range[n]))
  {
    IndexIsUnique(navigable, i);
    IndexIsUnique(navigable, j);
    var range := Range(navigable, navigable[i], navigable[j]);
    var lo := if i <= j then i else j;
    assert forall m :: 0 <= m < |range| ==> range[m] == navigable[lo + m];
    forall x
      ensures x in range <==> exists k :: 0 <= k < |navigable| && Between(i, k, j) && navigable[k] == x
    {
      if k :| 0 <= k < |navigable| && Between(i, k, j) && navigable[k] == x {
        assert range[k - lo] == x;
      }
      if m :| 0 <= m < |range| && range[m] == x {
        assert Between(i, lo + m, j) && navigable[lo + m] == x;
      }
    }
    forall m, n | 0 <= m < n < |range|
      ensures Precedes(navigable, range[m], range[n])
    {
      assert navigable[lo + m] == range[m] && navigable[lo + n] == range[n];
    }
  }

  /**
   A shift-click on the entry at j, with the anchor at i, selects exactly the
   visible entries between the two places, in the order of the list.
   */
  lemma ShiftSelectsBetween(s: State, env: Env, i: nat, j: nat)
    requires NoDup(env.navigable) && i < |env.navigable| && j < |env.navigable|
    requires s.anchor == Some(env.navigable[i]) && env.navigable[i] != "" && IsVisible(env.visible, env.navigable[j])
    ensures var selected := Handle(s, env, ShiftClick(env.navigable[j])).selected;
            && (forall x :: x in selected <==>
                  IsVisible(env.visible, x) && exists k :: 0 <= k < |env.navigable| && Between(i, k, j) && env.navigable[k] == x)
            && (forall m, n :: 0 <= m < n < |selected| ==> Precedes(env.navigable, selected[m], selected[n]))
  {
    var range := Range(env.navigable, env.navigable[i], env.navigable[j]);
    RangeIsBetween(env.navigable, i, j);
    ShiftSelectsVisible(s, env, env.navigable[i], env.navigable[j]);
    KeptPrecede(env.navigable, range, x => IsVisible(env.visible, x));
  }

  lemma ShiftSelectsVisible(s: State, env: Env, a: string, key: string)
    requires s.anchor == Some(a) && a != "" && IsVisible(env.visible, key)
    requires NoDup(Reach(env, a, key))
    ensures Handle(s, env, ShiftClick(key)).selected == Filter(Reach(env, a, key), x => IsVisible(env.visible, x))
  {
    ShiftIsReach(s, env, a, key);
    VisibleAreSelected(env.visible, Reach(env, a, key));
  }

  lemma KeptPrecede(navigable: seq<string>, range: seq<string>, keep: string -> bool)
    requires forall m, n :: 0 <= m < n < |range| ==> Precedes(navigable, range[m], range[n])
    ensures forall m, n :: 0 <= m < n < |Filter(range, keep)| ==> Precedes(navigable, Filter(range, keep)[m], Filter(range, keep)[n])
  {
    var kept := Filter(range, keep);
    forall m, n | 0 <= m < n < |kept|
      ensures Precedes(navigable, kept[m], kept[n])
    {
      FilterOrder(range, keep, m, n);
      var k, l :| 0 <= k < l < |range| && range[k] == kept[m] && range[l] == kept[n];
      assert Precedes(navigable, range[k], range[l]);
    }
  }

  /** Without a range, because an end cannot be navigated to, the clicked entry alone is selected. */
  lemma ShiftSelectsAlone(s: State, env: Env, a: string, key: string)
    requires s.anchor == Some(a) && a != "" && IsVisible(env.visible, key) && (a !in env.navigable || key !in env.navigable)
    ensures Handle(s, env, ShiftClick(key)).selected == [key]
  {
    ShiftSelectsVisible(s, env, a, key);
    assert [key][1..] == [];
  }

  lemma {:induction false} AllVisibleStay(visible: set<string>, keys: seq<string>)
    requires NoDup(keys) && forall x :: x in keys ==> IsVisible(visible, x)
    ensures UniqueVisible(visible, keys, []) == keys
  {
    VisibleAreSelected(visible, keys);
    FilterAll(keys, x => IsVisible(visible, x));
  }

  /** A plain click selects the keys in their order; an additive one appends a new entry or takes a selected one out. */
  lemma ClickKeepsOrder(s: State, env: Env, click: Click)
    requires NoDup(s.selected) && forall x :: x in s.selected ==> IsVisible(env.visible, x)
    requires NoDup(ValidKeys(env, click.keys)) && ValidKeys(env, click.keys) != [] && !click.shift
    ensures var valid, selected := ValidKeys(env, click.keys), Handle(s, env, click).selected;
            && (!click.additive ==> selected == valid)
            && (click.additive && |valid| == 1 && valid[0] !in s.selected ==> selected == s.selected + valid)
            && (click.additive && |valid| == 1 && valid[0] in s.selected ==> selected == Filter(s.selected, x => x != valid[0]))
  {
    var valid := ValidKeys(env, click.keys);
    assert forall x :: x in valid ==> IsVisible(env.visible, x);
    if !click.additive {
      AllVisibleStay(env.visible, valid);
    } else if |valid| == 1 {
      if valid[0] in s.selected {
        FilterNoDup(s.selected, IsOther(valid[0]));
        AllVisibleStay(env.visible, Filter(s.selected, IsOther(valid[0])));
        FilterAgree(s.selected, IsOther(valid[0]), x => x != valid[0]);
      } else {
        assert valid == [valid[0]];
        NoDupConcat(s.selected, [valid[0]]);
        AllVisibleStay(env.visible, s.selected + [valid[0]]);
      }
    }
  }

  // ---------- The order of selection, part by part ----------

  lemma {:induction false} AppendNewIsFilter(base: seq<string>, xs: seq<string>)
    requires NoDup(xs)
    ensures AppendNew(base, xs) == base + Filter(xs, x => x !in base)
    decreases |xs|
  {
    if xs != [] {
      assert xs[0] !in xs[1..];
      if xs[0] in base {
        AppendNewIsFilter(base, xs[1..]);
      } else {
        var next, rest := base + [xs[0]], Filter(xs[1..], x => x !in base);
        AppendNewIsFilter(next, xs[1..]);
        FilterAgree(xs[1..], x => x !in next, x => x !in base);
        assert next + rest == base + ([xs[0]] + rest);
      }
    }
  }

  /**
   The new order is: what was ordered and not touched, then the touched entries
   that are selected, then what is selected and neither was ordered nor touched.
   */
  lemma NextOrderParts(order: seq<string>, next: seq<string>, interacted: seq<string>)
    requires NoDup(order) && NoDup(next) && NoDup(interacted)
    ensures NextOrder(order, next, interacted) ==
              Untouched(order, next, interacted) + Filter(interacted, x => x in next)
              + Filter(next, x => x !in order && x !in interacted)
  {
    AppendNewIsFilter([], interacted);
    FilterAll(interacted, x => x !in []);
    assert Distinct(interacted) == interacted;
    var base := Filter(Filter(order, x => x in next), x => x !in interacted);
    FilterTwice(order, x => x in next, x => x !in interacted, x => x in next && x !in interacted);
    var kept := Filter(interacted, x => x in next);
    FilterNoDup(interacted, x => x in next);
    AppendNewIsFilter(base, kept);
    FilterAll(kept, x => x !in base);
    AppendNewIsFilter(base + kept, next);
    FilterAgree(next, x => x !in base + kept, x => x !in order && x !in interacted);
  }

  /**
   A shift-click moves to the end of the order what it adds to the selection and
   the clicked entry, in the order of the list; the rest keeps its place.
   */
  lemma ShiftOrders(s: State, visible: set<string>, env: Env, i: nat, j: nat)
    requires Coherent(s, visible) && NoDup(env.navigable) && i < |env.navigable| && j < |env.navigable|
    requires s.anchor == Some(env.navigable[i]) && env.navigable[i] != "" && IsVisible(env.visible, env.navigable[j])
    ensures var key := env.navigable[j];
            var s' := Handle(s, env, ShiftClick(key));
            s'.order == Filter(s.order, x => x in s'.selected && x != key) + Filter(s'.selected, IsTouched(key, s.selected))
  {
    var key := env.navigable[j];
    var s' := Handle(s, env, ShiftClick(key));
    var range := Range(env.navigable, env.navigable[i], key);
    RangeIsBetween(env.navigable, i, j);
    assert Between(i, j, j) && key in range;
    ShiftSelectsVisible(s, env, env.navigable[i], key);
    ShiftAsksFor(s, env, env.navigable[i], key);
    OrderOfRange(s.order, s.selected, range, key, env.visible);
  }

  lemma OrderOfRange(order: seq<string>, before: seq<string>, range: seq<string>, key: string, visible: set<string>)
    requires Permutation(order, before) && NoDup(range) && key in range
    ensures var selected := Filter(range, x => IsVisible(visible, x));
            NextOrder(order, selected, WithKey(Filter(range, IsTouched(key, before)), key)) ==
              Filter(order, x => x in selected && x != key) + Filter(selected, IsTouched(key, before))
  {
    var selected, touched := Filter(range, x => IsVisible(visible, x)), Filter(range, IsTouched(key, before));
    FilterNoDup(range, x => IsVisible(visible, x));
    FilterNoDup(range, IsTouched(key, before));
    assert WithKey(touched, key) == touched;
    NextOrderParts(order, selected, touched);
    FilterAgree(order, x => x in selected && x !in touched, x => x in selected && x != key);
    FilterNone(selected, x => x !in order && x !in touched);
    SwapFilters(range, IsTouched(key, before), x => IsVisible(visible, x));
    FilterAgree(touched, x => x in selected, x => IsVisible(visible, x));
  }

  lemma ShiftAsksFor(s: State, env: Env, a: string, key: string)
    requires s.anchor == Some(a) && a != "" && IsVisible(env.visible, key) && a in env.navigable && key in env.navigable
    ensures var s' := Handle(s, env, ShiftClick(key));
            s'.order == NextOrder(s.order, s'.selected, WithKey(Filter(Range(env.navigable, a, key), IsTouched(key, s.selected)), key))
  {
    assert ValidKeys(env, [key]) == [key];
  }

  lemma {:induction false} SwapFilters(xs: seq<string>, p: string -> bool, q: string -> bool)
    ensures Filter(Filter(xs, p), q) == Filter(Filter(xs, q), p)
  {
    FilterTwice(xs, p, q, x => p(x) && q(x));
    FilterTwice(xs, q, p, x => p(x) && q(x));
  }

  /** Promoting a document moves its entry to the end of the order and nothing else. */
  lemma PromoteMovesLast(s: State, visible: set<string>, document: string)
    requires Coherent(s, visible) && document != "" && DocumentKey(document) in s.selected
    ensures Promote(s, document) == s.(order := Filter(s.order, x => x != DocumentKey(document)) + [DocumentKey(document)])
  {
    var key := DocumentKey(document);
    NextOrderParts(s.order, s.selected, [key]);
    FilterAgree(s.order, x => x in s.selected && x !in [key], x => x != key);
    assert [key][1..] == [];
    assert Filter([key], x => x in s.selected) == [key];
    FilterNone(s.selected, x => x !in s.order && x !in [key]);
  }

  /** Clearing leaves nothing selected, ordered, anchored or focused. */
  lemma ClearEmpties(s: State, env: Env)
    ensures Clear(s, env) == State([], [], None, None, None)
  {
    FilterNone(s.order, x => x in []);
  }

  // ---------- Anchor and focus ----------

  /** The anchor asked for if it is selected, else the old one if it is, else the entry selected last. */
  lemma AnchorAfterApply(s: State, env: Env, keys: seq<string>, anchor: string, interacted: seq<string>)
    requires anchor != ""
    ensures var s' := Apply(s, env, keys, Some(anchor), interacted);
            && (anchor in s'.selected ==> s'.anchor == Some(anchor))
            && (anchor !in s'.selected && s'.selected == [] ==> s'.anchor.None?)
            && (anchor !in s'.selected && s'.selected != [] && Truthy(s.anchor) && s.anchor.value in s'.selected ==> s'.anchor == s.anchor)
            && (anchor !in s'.selected && s'.selected != [] && !(Truthy(s.anchor) && s.anchor.value in s'.selected) ==>
                  s'.anchor == Some(s'.selected[|s'.selected| - 1]))
  {
  }

  lemma {:induction false} LastDocumentIsLast(keys: seq<string>)
    ensures LastDocument(keys).Some? ==>
              exists m :: 0 <= m < |keys| && keys[m] == LastDocument(keys).value && forall n :: m < n < |keys| ==> !IsDocumentEntry(keys[n])
    decreases |keys|
  {
    if keys != [] && !IsDocumentEntry(keys[|keys| - 1]) {
      var front := keys[..|keys| - 1];
      LastDocumentIsLast(front);
      if LastDocument(keys).Some? {
        var m :| 0 <= m < |front| && front[m] == LastDocument(front).value && forall n :: m < n < |front| ==> !IsDocumentEntry(front[n]);
        assert keys[m] == LastDocument(keys).value;
        assert forall n :: m < n < |front| ==> keys[n] == front[n];
      }
    }
  }

  /**
   The focused document stays focused while it is selected; else the anchor is
   focused, if it is a selected document, else the document selected last.
   */
  lemma FocusAfterApply(s: State, env: Env, keys: seq<string>, anchor: string, interacted: seq<string>)
    requires anchor != ""
    ensures var s' := Apply(s, env, keys, Some(anchor), interacted);
            var stays := Truthy(s.focusedDocument) && DocumentKey(s.focusedDocument.value) in s'.selected;
            && (stays ==> s'.focusedDocument == s.focusedDocument)
            && (!stays && anchor in s'.selected && IsDocumentEntry(anchor) ==> s'.focusedDocument == Some(EntryId(anchor)))
            && (!stays && !(anchor in s'.selected && IsDocumentEntry(anchor)) && s'.focusedDocument.Some? ==>
                  exists m :: 0 <= m < |s'.selected| && IsDocumentEntry(s'.selected[m]) && s'.focusedDocument == Some(EntryId(s'.selected[m]))
                              && forall n :: m < n < |s'.selected| ==> !IsDocumentEntry(s'.selected[n]))
  {
    var s' := Apply(s, env, keys, Some(anchor), interacted);
    LastDocumentIsLast(s'.selected);
    LastDocumentFacts(s'.selected);
  }
}
