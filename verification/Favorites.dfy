/** Shared favorites (core/favorites.py): a list that several clients edit, guarded by a revision number. */
module Favorites {
  import opened Prelude

  const MaxFavorites: nat := 20
  const MaxLabel: nat := 48
  const MaxBytes: nat := 32768

  /** A character of a label, lone surrogates included. */
  type CodePoint = c: nat | c < 0x110000

  type Label = seq<CodePoint>

  datatype Item = Item(node: string, text: Label)

  datatype State = State(local: string, revision: int, favorites: seq<Item>)

  // ---------------------------------------------------------------------------------------------------
  // Acceptance.

  predicate ValidLabel(l: Label) {
    |l| <= MaxLabel && forall i :: 0 <= i < |l| ==> l[i] >= 32
  }

  predicate ValidItem(item: Item, local: string) {
    Numeric(item.node) && item.node != local && ValidLabel(item.text)
  }

  predicate Unique(items: seq<Item>) {
    forall i, j :: 0 <= i < j < |items| ==> items[i].node != items[j].node
  }

  predicate ValidItems(items: seq<Item>, local: string) {
    Unique(items) && forall i :: 0 <= i < |items| ==> ValidItem(items[i], local)
  }

  predicate ValidState(s: State, local: string) {
    s.local == local && s.revision >= 0 && |s.favorites| <= MaxFavorites && ValidItems(s.favorites, local)
  }

  /** The file: absent, not JSON, or the text of a state, `size` bytes long. */
  datatype File = Missing | Damaged | Text(state: State, size: nat)

  /** `_read`. */
  function Read(file: File, local: string): Option<State> {
    if !Numeric(local) then None
    else
      match file
      case Missing => Some(State(local, 0, []))
      case Damaged => None
      case Text(s, size) => if size <= MaxBytes && ValidState(s, local) then Some(s) else None
  }

  // ---------------------------------------------------------------------------------------------------
  // The text that is written.

  function HexDigit(d: nat): char
    requires d < 16
  {
    "0123456789abcdef"[d]
  }

  function Unicode(u: nat): string
    requires u < 0x10000
  {
    ['\\', 'u', HexDigit(u / 0x1000), HexDigit(u / 0x100 % 16), HexDigit(u / 16 % 16), HexDigit(u % 16)]
  }

  /** A character of a JSON string, in ASCII. */
  function Escaped(c: CodePoint): string {
    if c == 34 then ['\\', '"']
    else if c == 92 then ['\\', '\\']
    else if c == 8 then ['\\', 'b']
    else if c == 9 then ['\\', 't']
    else if c == 10 then ['\\', 'n']
    else if c == 12 then ['\\', 'f']
    else if c == 13 then ['\\', 'r']
    else if 32 <= c < 127 then [c as char]
    else if c < 0x10000 then Unicode(c)
    else Unicode(0xD800 + (c - 0x10000) / 0x400) + Unicode(0xDC00 + (c - 0x10000) % 0x400)
  }

  function LabelText(l: Label): string {
    if l == [] then "" else LabelText(l[..|l| - 1]) + Escaped(l[|l| - 1])
  }

  function Decimal(n: nat): string {
    if n < 10 then [HexDigit(n)] else Decimal(n / 10) + [HexDigit(n % 10)]
  }

  function ItemText(item: Item): string {
    "{\"node\": \"" + item.node + "\", \"label\": \"" + LabelText(item.text) + "\"}"
  }

  function ItemsText(items: seq<Item>): string {
    if items == [] then ""
    else if |items| == 1 then ItemText(items[0])
    else ItemsText(items[..|items| - 1]) + ", " + ItemText(items[|items| - 1])
  }

  function Json(s: State): string
    requires s.revision >= 0
  {
    "{\"local_node\": \"" + s.local + "\", \"revision\": " + Decimal(s.revision)
    + ", \"favorites\": [" + ItemsText(s.favorites) + "]}"
  }

  /** How long the text of a character is: two for the seven with an escape of their own, one for the rest of printable
      ASCII, six for the rest of the first plane and twelve, as two surrogates, above it. */
  lemma EscapedLength(c: CodePoint)
    ensures |Escaped(c)| == if c in {8, 9, 10, 12, 13, 34, 92} then 2
                            else if 32 <= c <= 126 then 1
                            else if c <= 0xFFFF then 6 else 12
  {
  }

  function ValueOf(digits: string): nat {
    if digits == "" then 0
    else
      var d := digits[|digits| - 1];
      10 * ValueOf(digits[..|digits| - 1]) + if '0' <= d <= '9' then (d - '0') as nat else 0
  }

  /** A decimal numeral has the value of the number, only digits, and no leading zero. */
  lemma {:induction false} DecimalMeans(n: nat)
    ensures ValueOf(Decimal(n)) == n && (forall i :: 0 <= i < |Decimal(n)| ==> '0' <= Decimal(n)[i] <= '9')
    ensures Decimal(n) != "" && (Decimal(n)[0] == '0' ==> n == 0 && Decimal(n) == "0")
  {
    hide HexDigit, Pow10;
    DigitIs(n % 10);
    if n >= 10 {
      DecimalMeans(n / 10);
      assert Decimal(n)[..|Decimal(n)| - 1] == Decimal(n / 10);
    } else {
      assert Decimal(n)[..0] == "";
    }
  }

  lemma DigitIs(d: nat)
    requires d < 10
    ensures '0' <= HexDigit(d) <= '9' && (HexDigit(d) - '0') as nat == d && (HexDigit(d) == '0' <==> d == 0)
  {
  }

  lemma {:induction false} LabelTextBound(l: Label)
    ensures |LabelText(l)| <= 12 * |l|
  {
    if l != [] {
      LabelTextBound(l[..|l| - 1]);
    }
  }

  lemma {:induction false} ItemsTextBound(items: seq<Item>, local: string)
    requires forall i :: 0 <= i < |items| ==> ValidItem(items[i], local)
    ensures |ItemsText(items)| <= 613 * |items|
  {
    if items != [] {
      var last := items[|items| - 1];
      LabelTextBound(last.text);
      assert |ItemText(last)| <= 611 by {
        assert ValidItem(last, local);
      }
      ItemsTextBound(items[..|items| - 1], local);
    }
  }

  function Pow10(k: nat): (p: nat)
    ensures p >= 1
  {
    if k == 0 then 1 else 10 * Pow10(k - 1)
  }

  lemma {:induction false} DecimalBound(n: nat, k: nat)
    requires k >= 1 && n < Pow10(k)
    ensures |Decimal(n)| <= k
  {
    if n >= 10 {
      DecimalBound(n / 10, k - 1);
    }
  }

  /** Twenty labels of 48 characters at twelve bytes each, with everything around them, stay far below the limit: the
      text of a valid state is readable for every revision of up to 20000 digits. */
  lemma WrittenIsReadable(s: State, local: string, k: nat)
    requires Numeric(local) && ValidState(s, local)
    requires 1 <= k <= 20000 && s.revision < Pow10(k)
    ensures |Json(s)| <= MaxBytes
    ensures Read(Text(s, |Json(s)|), local) == Some(s)
  {
    hide Pow10;
    JsonLength(s);
    hide Json;
    DecimalBound(s.revision, k);
    ItemsTextBound(s.favorites, local);
  }

  lemma JsonLength(s: State)
    requires s.revision >= 0
    ensures |Json(s)| <= 60 + |s.local| + |Decimal(s.revision)| + |ItemsText(s.favorites)|
  {
    hide Decimal, ItemsText;
    assert |"{\"local_node\": \"" + s.local + "\", \"revision\": "| <= 40 + |s.local|;
  }

  // ---------------------------------------------------------------------------------------------------
  // Operations.

  predicate IsSpace(c: CodePoint) {
    || 9 <= c <= 13 || 28 <= c <= 32 || c == 0x85 || c == 0xA0 || c == 0x1680 || 0x2000 <= c <= 0x200A
    || c == 0x2028 || c == 0x2029 || c == 0x202F || c == 0x205F || c == 0x3000
  }

  function Strip(l: Label): Label {
    if l == [] then []
    else if IsSpace(l[0]) then Strip(l[1..])
    else if IsSpace(l[|l| - 1]) then Strip(l[..|l| - 1])
    else l
  }

  function Stripped(item: Item): Item {
    item.(text := Strip(item.text))
  }

  /** Stripping cuts off spaces only, and all of them. */
  lemma {:induction false} StripMeaning(l: Label) returns (i: nat, j: nat)
    ensures i <= j <= |l| && Strip(l) == l[i..j]
    ensures forall k :: 0 <= k < |l| && !(i <= k < j) ==> IsSpace(l[k])
    ensures i < j ==> !IsSpace(l[i]) && !IsSpace(l[j - 1])
  {
    hide IsSpace;
    if l == [] {
      i, j := 0, 0;
    } else if IsSpace(l[0]) {
      i, j := StripMeaning(l[1..]);
      assert l[1..][i..j] == l[i + 1..j + 1];
      assert forall k :: 1 <= k < |l| ==> l[k] == l[1..][k - 1];
      i, j := i + 1, j + 1;
    } else if IsSpace(l[|l| - 1]) {
      i, j := StripMeaning(l[..|l| - 1]);
      assert l[..|l| - 1][i..j] == l[i..j];
      assert forall k :: 0 <= k < |l| - 1 ==> l[k] == l[..|l| - 1][k];
    } else {
      i, j := 0, |l|;
    }
  }

  lemma StripKeepsValid(item: Item, local: string)
    requires ValidItem(item, local)
    ensures ValidItem(Stripped(item), local)
  {
    var i, j := StripMeaning(item.text);
  }

  datatype Operation = Save(item: Item) | Remove(node: string) | Import(items: seq<Item>)

  predicate ValidOperation(op: Operation, local: string) {
    match op
    case Save(item) => ValidItem(item, local)
    case Remove(node) => Numeric(node) && node != local
    case Import(items) => |items| <= MaxFavorites && ValidItems(items, local)
  }

  function Nodes(items: seq<Item>): seq<string> {
    seq(|items|, i requires 0 <= i < |items| => items[i].node)
  }

  function Removed(items: seq<Item>, node: string): seq<Item> {
    if items == [] then []
    else
      var init, last := items[..|items| - 1], items[|items| - 1];
      Removed(init, node) + if last.node == node then [] else [last]
  }

  function Saved(items: seq<Item>, item: Item): seq<Item> {
    if items == [] then [item]
    else if items[0].node == item.node then [item] + items[1..]
    else [items[0]] + Saved(items[1..], item)
  }

  function Imported(items: seq<Item>, more: seq<Item>): seq<Item> {
    if more == [] then items
    else
      var so, last := Imported(items, more[..|more| - 1]), more[|more| - 1];
      if last.node in Nodes(so) then so else so + [Stripped(last)]
  }

  function Applied(items: seq<Item>, op: Operation): seq<Item> {
    match op
    case Save(item) => Saved(items, Stripped(item))
    case Remove(node) => Removed(items, node)
    case Import(more) => Imported(items, more)
  }

  lemma NodeAt(items: seq<Item>, node: string)
    ensures node in Nodes(items) <==> exists x :: x in items && x.node == node
  {
    if node in Nodes(items) {
      var i :| 0 <= i < |Nodes(items)| && Nodes(items)[i] == node;
      assert items[i] in items;
    }
    if x :| x in items && x.node == node {
      var i :| 0 <= i < |items| && items[i] == x;
      assert Nodes(items)[i] == node;
    }
  }

  lemma {:induction false} SaveNodes(items: seq<Item>, item: Item)
    ensures Nodes(Saved(items, item)) == if item.node in Nodes(items) then Nodes(items) else Nodes(items) + [item.node]
  {
    if items != [] {
      var rest := items[1..];
      assert Nodes(items) == [items[0].node] + Nodes(rest);
      if items[0].node == item.node {
        assert Nodes([item] + rest) == [item.node] + Nodes(rest);
      } else {
        SaveNodes(rest, item);
        assert Nodes([items[0]] + Saved(rest, item)) == [items[0].node] + Nodes(Saved(rest, item));
      }
    }
  }

  /** Saving replaces the label of the node where it stands, or puts a new node last; nothing else changes. */
  lemma {:induction false} SaveMeaning(items: seq<Item>, item: Item)
    requires Unique(items)
    ensures var r := Saved(items, item);
            && (forall x :: x in r <==> x == item || (x in items && x.node != item.node))
            && Nodes(r) == (if item.node in Nodes(items) then Nodes(items) else Nodes(items) + [item.node])
  {
    SaveNodes(items, item);
    hide Nodes;
    if items != [] {
      var rest := items[1..];
      assert items == [items[0]] + rest;
      if items[0].node == item.node {
        forall x | x in rest ensures x.node != item.node {
          var k :| 0 <= k < |rest| && rest[k] == x;
          assert items[k + 1] == x;
        }
      } else {
        SaveMeaning(rest, item);
      }
    }
  }

  /** Removing takes out exactly the node; the others keep their order. */
  lemma {:induction false} RemoveMeaning(items: seq<Item>, node: string)
    ensures var r := Removed(items, node);
            && |r| <= |items|
            && (forall x :: x in r <==> x in items && x.node != node)
            && (Unique(items) ==> Unique(r))
  {
    if items != [] {
      var init, last := items[..|items| - 1], items[|items| - 1];
      assert items == init + [last];
      RemoveMeaning(init, node);
      if Unique(items) {
        forall x | x in init ensures x.node != last.node {
          var k :| 0 <= k < |init| && init[k] == x;
          assert items[k].node != items[|init|].node;
        }
        UniqueAppend(Removed(init, node), last);
      }
    }
  }

  lemma UniqueAppend(items: seq<Item>, item: Item)
    requires Unique(items) && forall x :: x in items ==> x.node != item.node
    ensures Unique(items + [item])
  {
  }

  /** Importing keeps the list as it is and appends the nodes it does not have yet: a node already listed keeps the
      label it had. */
  lemma {:induction false} ImportMeaning(items: seq<Item>, more: seq<Item>)
    requires Unique(more)
    ensures var r := Imported(items, more);
            && items <= r
            && (forall x :: x in r <==> x in items || exists m :: m in more && m.node !in Nodes(items) && x == Item(m.node, Strip(m.text)))
  {
    if more != [] {
      var init, last := more[..|more| - 1], more[|more| - 1];
      assert more == init + [last];
      ImportMeaning(items, init);
      var so := Imported(items, init);
      NodeAt(so, last.node);
      NodeAt(items, last.node);
      forall m | m in init ensures m.node != last.node {
        var k :| 0 <= k < |init| && init[k] == m;
        assert more[k].node != more[|init|].node;
      }
      assert last.node in Nodes(so) <==> last.node in Nodes(items);
      assert forall m :: m in more <==> m in init || m == last;
    }
  }

  /** Every operation keeps a list valid, except that it may make it too long. */
  lemma AppliedIsValid(items: seq<Item>, op: Operation, local: string)
    requires ValidItems(items, local) && ValidOperation(op, local)
    ensures ValidItems(Applied(items, op), local)
    ensures op.Remove? ==> |Applied(items, op)| <= |items|
  {
    hide ValidItem, IsSpace;
    var r := Applied(items, op);
    match op {
      case Save(item) =>
        SaveMeaning(items, Stripped(item));
        StripKeepsValid(item, local);
        UniqueByNodes(items, r, item.node);
        AllValid(items, local);
        ValidAll(r, local);
      case Remove(node) =>
        RemoveMeaning(items, node);
        AllValid(items, local);
        ValidAll(r, local);
      case Import(more) =>
        ImportMeaning(items, more);
        ImportedUnique(items, more);
        AllValid(items, local);
        AllValid(more, local);
        forall m | m in more ensures ValidItem(Stripped(m), local) {
          StripKeepsValid(m, local);
        }
        ValidAll(r, local);
    }
  }

  lemma AllValid(items: seq<Item>, local: string)
    requires ValidItems(items, local)
    ensures forall x :: x in items ==> ValidItem(x, local)
  {
  }

  lemma ValidAll(items: seq<Item>, local: string)
    requires Unique(items) && forall x :: x in items ==> ValidItem(x, local)
    ensures ValidItems(items, local)
  {
    assert forall i :: 0 <= i < |items| ==> items[i] in items;
  }

  lemma UniqueByNodes(items: seq<Item>, r: seq<Item>, node: string)
    requires Unique(items)
    requires Nodes(r) == if node in Nodes(items) then Nodes(items) else Nodes(items) + [node]
    ensures Unique(r)
  {
    assert |r| == |Nodes(r)|;
    forall i, j | 0 <= i < j < |r| ensures r[i].node != r[j].node {
      assert Nodes(r)[i] == r[i].node && Nodes(r)[j] == r[j].node;
      assert Nodes(items)[i] == items[i].node;
      if j < |items| {
        assert items[i].node != items[j].node;
      }
    }
  }

  lemma {:induction false} ImportedUnique(items: seq<Item>, more: seq<Item>)
    requires Unique(items)
    ensures Unique(Imported(items, more))
  {
    if more != [] {
      var so, last := Imported(items, more[..|more| - 1]), more[|more| - 1];
      ImportedUnique(items, more[..|more| - 1]);
      if last.node !in Nodes(so) {
        forall x | x in so ensures x.node != last.node {
          NodeAt(so, last.node);
        }
        UniqueAppend(so, Stripped(last));
      }
    }
  }

  // ---------------------------------------------------------------------------------------------------
  // Requests.

  /** A request; None stands for one with the wrong fields or types. */
  datatype Request = Request(local: string, revision: int, op: Operation)

  datatype Response =
    | Accepted(state: State)
    | BadRequest
    | Unavailable
    | Conflict
    | Full
    | NotSaved

  predicate ValidRequest(request: Option<Request>, local: string) {
    match request
    case None => false
    case Some(r) => r.local == local && r.revision >= 0 && ValidOperation(r.op, local)
  }

  /** `update`, as a function of the file; `writable` says whether the disk takes the new file. */
  function Answer(file: File, local: string, request: Option<Request>, writable: bool): Response {
    if !ValidRequest(request, local) then BadRequest
    else if Read(file, local).None? then Unavailable
    else
      var current := Read(file, local).value;
      var r := request.value;
      if r.revision != current.revision then Conflict
      else
        var items := Applied(current.favorites, r.op);
        if |items| > MaxFavorites then Full
        else if !writable then NotSaved
        else Accepted(State(local, current.revision + 1, items))
  }

  function After(file: File, response: Response): File {
    if response.Accepted? && response.state.revision >= 0 then Text(response.state, |Json(response.state)|) else file
  }

  class Store {
    var file: File

    constructor (file: File)
      ensures this.file == file
    {
      this.file := file;
    }

    method Find(items: seq<Item>, node: string) returns (at: Option<nat>)
      ensures at.Some? ==> at.value < |items| && items[at.value].node == node
                           && forall k :: 0 <= k < at.value ==> items[k].node != node
      ensures at.None? ==> forall k :: 0 <= k < |items| ==> items[k].node != node
    {
      for i := 0 to |items|
        invariant forall k :: 0 <= k < i ==> items[k].node != node
      {
        if items[i].node == node {
          return Some(i);
        }
      }
      return None;
    }

    method Edit(items: seq<Item>, op: Operation) returns (edited: seq<Item>)
      ensures edited == Applied(items, op)
    {
      hide IsSpace, Strip;
      edited := items;
      match op {
        case Save(item) =>
          var stripped := Stripped(item);
          var at := Find(items, item.node);
          if at.None? {
            edited := items + [stripped];
          } else {
            edited := items[at.value := stripped];
          }
          SavedAt(items, stripped, at);
        case Remove(node) =>
          edited := [];
          for i := 0 to |items|
            invariant edited == Removed(items[..i], node)
          {
            assert items[..i + 1][..i] == items[..i];
            if items[i].node != node {
              edited := edited + [items[i]];
            }
          }
          assert items[..|items|] == items;
        case Import(more) =>
          for i := 0 to |more|
            invariant edited == Imported(items, more[..i])
          {
            assert more[..i + 1][..i] == more[..i];
            if more[i].node !in Nodes(edited) {
              edited := edited + [Stripped(more[i])];
            }
          }
          assert more[..|more|] == more;
      }
    }

    /** `update`. Whatever is not accepted leaves the file as it was. */
    method Update(local: string, request: Option<Request>, writable: bool) returns (response: Response)
      modifies this
      ensures response == Answer(old(file), local, request, writable)
      ensures file == After(old(file), response)
    {
      if !ValidRequest(request, local) {
        return BadRequest;
      }
      var current := Read(file, local);
      if current.None? {
        return Unavailable;
      }
      if request.value.revision != current.value.revision {
        return Conflict;
      }
      var items := Edit(current.value.favorites, request.value.op);
      if |items| > MaxFavorites {
        return Full;
      }
      if !writable {
        return NotSaved;
      }
      var saved := State(local, current.value.revision + 1, items);
      file := Text(saved, |Json(saved)|);
      return Accepted(saved);
    }
  }

  lemma {:induction false} SavedAt(items: seq<Item>, item: Item, at: Option<nat>)
    requires at.Some? ==> at.value < |items| && items[at.value].node == item.node
                          && forall k :: 0 <= k < at.value ==> items[k].node != item.node
    requires at.None? ==> forall k :: 0 <= k < |items| ==> items[k].node != item.node
    ensures Saved(items, item) == if at.Some? then items[at.value := item] else items + [item]
  {
    if items != [] && at != Some(0) {
      assert items[0].node != item.node;
      SavedAt(items[1..], item, if at.Some? then Some(at.value - 1) else None);
      assert items == [items[0]] + items[1..];
    }
  }

  /** When an update is accepted: exactly when the request is well formed, the file readable, the revision the current
      one, the result within twenty and the disk willing. The new state is the operation applied to that revision, is
      valid, and carries the next revision. */
  lemma AcceptedIff(file: File, local: string, request: Option<Request>, writable: bool)
    ensures var r := Answer(file, local, request, writable);
            && (r.Accepted? <==>
                && ValidRequest(request, local)
                && Read(file, local).Some?
                && request.value.revision == Read(file, local).value.revision
                && |Applied(Read(file, local).value.favorites, request.value.op)| <= MaxFavorites
                && writable)
            && (r.Accepted? ==>
                && r.state.favorites == Applied(Read(file, local).value.favorites, request.value.op)
                && r.state.revision == Read(file, local).value.revision + 1
                && ValidState(r.state, local))
            && (!r.Accepted? ==> After(file, r) == file)
  {
    hide Applied, ValidOperation, ValidItems;
    if ValidRequest(request, local) && Read(file, local).Some? {
      var current := Read(file, local).value;
      assert ValidState(current, local) by {
        EmptyIsValid(local);
      }
      AppliedIsValid(current.favorites, request.value.op, local);
    }
  }

  /** Removing and importing go through a list in its order. */
  lemma {:induction false} InListOrder(items: seq<Item>, a: seq<Item>, b: seq<Item>, node: string)
    ensures Removed(a + b, node) == Removed(a, node) + Removed(b, node)
    ensures Imported(items, a + b) == Imported(Imported(items, a), b)
    decreases b
  {
    if b == [] {
      assert a + b == a;
    } else {
      var init, last := b[..|b| - 1], b[|b| - 1];
      assert (a + b)[..|a + b| - 1] == a + init;
      InListOrder(items, a, init, node);
      hide Strip, Nodes;
    }
  }

  /** What an operation makes of a list, label by label. */
  lemma AppliedMeans(items: seq<Item>, op: Operation)
    requires Unique(items) && (op.Import? ==> Unique(op.items))
    ensures forall x :: x in Applied(items, op) <==>
              match op
              case Save(item) => x == Item(item.node, Strip(item.text)) || (x in items && x.node != item.node)
              case Remove(node) => x in items && x.node != node
              case Import(more) =>
                x in items || exists m :: m in more && m.node !in Nodes(items) && x == Item(m.node, Strip(m.text))
  {
    hide Strip, Nodes, IsSpace;
    match op
    case Save(item) => SaveMeaning(items, Stripped(item));
    case Remove(node) => RemoveMeaning(items, node);
    case Import(more) => ImportMeaning(items, more);
  }

  /** A node that is not the local one and a label of at most 48 characters without controls. */
  predicate GoodItem(item: Item, local: string) {
    && 1 <= |item.node| <= 10 && (forall i :: 0 <= i < |item.node| ==> '0' <= item.node[i] <= '9') && item.node != local
    && |item.text| <= 48 && forall i :: 0 <= i < |item.text| ==> 32 <= item.text[i]
  }

  predicate GoodItems(items: seq<Item>, local: string) {
    && |items| <= 20 && (forall i :: 0 <= i < |items| ==> GoodItem(items[i], local))
    && forall i, j :: 0 <= i < j < |items| ==> items[i].node != items[j].node
  }

  /** Exactly which requests are well formed. */
  lemma RequestIff(request: Option<Request>, local: string)
    ensures ValidRequest(request, local) <==>
              && request.Some? && request.value.local == local && 0 <= request.value.revision
              && match request.value.op
                 case Save(item) => GoodItem(item, local)
                 case Remove(node) =>
                   && 1 <= |node| <= 10 && (forall i :: 0 <= i < |node| ==> '0' <= node[i] <= '9') && node != local
                 case Import(items) => GoodItems(items, local)
  {
    if request.Some? && request.value.op.Import? {
      GoodItemsIff(request.value.op.items, local);
    }
  }

  lemma GoodItemsIff(items: seq<Item>, local: string)
    ensures GoodItems(items, local) <==> |items| <= 20 && ValidItems(items, local)
  {
    assert forall i :: 0 <= i < |items| ==> (GoodItem(items[i], local) <==> ValidItem(items[i], local));
    hide GoodItem, ValidItem;
  }

  /** Exactly which files can be read, and as what: a missing one is the empty list at revision zero. */
  lemma ReadableIff(file: File, local: string)
    ensures var good := 1 <= |local| <= 10 && forall i :: 0 <= i < |local| ==> '0' <= local[i] <= '9';
            Read(file, local) ==
            if good && file.Missing? then Some(State(local, 0, []))
            else if good && file.Text? && file.size <= 32768 && file.state.local == local && 0 <= file.state.revision
                    && GoodItems(file.state.favorites, local)
            then Some(file.state)
            else None
  {
    if file.Text? {
      GoodItemsIff(file.state.favorites, local);
    }
    hide GoodItems, ValidItems;
  }

  lemma EmptyIsValid(local: string)
    ensures ValidItems([], local)
  {
  }

  // ---------------------------------------------------------------------------------------------------
  // Clients.

  /** A step of one of several clients: it fetches the list, or sends an operation with the revision it last saw. */
  datatype Step = Fetch(client: nat) | Send(client: nat, op: Operation, writable: bool)

  /** `views` is what each client saw last; `written` lists every state since the run began, the first one included. */
  datatype Sys = Sys(file: File, views: map<nat, State>, written: seq<State>)

  function RequestOf(s: Sys, local: string, client: nat, op: Operation): Option<Request> {
    if client in s.views then Some(Request(local, s.views[client].revision, op)) else None
  }

  function Next(s: Sys, local: string, step: Step): Sys {
    match step
    case Fetch(client) =>
      var seen := Read(s.file, local);
      if seen.Some? then s.(views := s.views[client := seen.value]) else s
    case Send(client, op, writable) =>
      var r := Answer(s.file, local, RequestOf(s, local, client, op), writable);
      if r.Accepted? then
        Sys(After(s.file, r), s.views[client := r.state], s.written + [r.state])
      else s
  }

  function Run(file: File, local: string, steps: seq<Step>): Sys
    requires Read(file, local).Some?
  {
    if steps == [] then Sys(file, map[], [Read(file, local).value])
    else Next(Run(file, local, steps[..|steps| - 1]), local, steps[|steps| - 1])
  }

  /** What every reachable state satisfies: the file is the last state written, the revisions count the states, and
      every client has seen one of them. */
  ghost predicate Consistent(s: Sys, local: string, base: int) {
    && |s.written| >= 1
    && Read(s.file, local) == Some(s.written[|s.written| - 1])
    && (forall k :: 0 <= k < |s.written| ==> s.written[k].revision == base + k)
    && (forall c :: c in s.views ==> s.views[c] in s.written)
  }

  lemma NextKeeps(s: Sys, local: string, step: Step, base: int, k: nat)
    requires Consistent(s, local, base) && 1 <= k <= 20000 && base + |s.written| < Pow10(k)
    ensures var t := Next(s, local, step);
            Consistent(t, local, base) && |s.written| <= |t.written| <= |s.written| + 1
  {
    hide Answer, ValidState, Pow10;
    if step.Send? {
      var request := RequestOf(s, local, step.client, step.op);
      var r := Answer(s.file, local, request, step.writable);
      AcceptedIff(s.file, local, request, step.writable);
      if r.Accepted? {
        WrittenIsReadable(r.state, local, k);
      }
    }
  }

  /** Over every run of any number of clients the file stays readable: each revision is one more than the last and
      every written state passes the reader again. The revision must have at most 20000 digits. */
  lemma {:induction false} RunKeeps(file: File, local: string, steps: seq<Step>, k: nat)
    requires Read(file, local).Some?
    requires 1 <= k <= 20000 && Read(file, local).value.revision + |steps| + 1 < Pow10(k)
    ensures var s := Run(file, local, steps);
            Consistent(s, local, Read(file, local).value.revision) && |s.written| <= |steps| + 1
  {
    hide Pow10, ValidItems, Json;
    if steps != [] {
      var init := steps[..|steps| - 1];
      RunKeeps(file, local, init, k);
      hide Consistent, Next, Read;
      NextKeeps(Run(file, local, init), local, steps[|steps| - 1], Read(file, local).value.revision, k);
    }
  }

  /** No update is lost and none works on a stale list: in every reachable state, a client's operation is accepted only
      if the file still is exactly the state that client saw last. */
  lemma {:induction false} AcceptedSawTheFile(file: File, local: string, steps: seq<Step>, k: nat, client: nat, op: Operation, writable: bool)
    requires Read(file, local).Some?
    requires 1 <= k <= 20000 && Read(file, local).value.revision + |steps| + 1 < Pow10(k)
    ensures var s := Run(file, local, steps);
            var r := Answer(s.file, local, RequestOf(s, local, client, op), writable);
            r.Accepted? ==>
              && client in s.views
              && Read(s.file, local) == Some(s.views[client])
              && r.state.favorites == Applied(s.views[client].favorites, op)
  {
    hide Pow10, Answer, Run, Read;
    RunKeeps(file, local, steps, k);
    var s := Run(file, local, steps);
    var request := RequestOf(s, local, client, op);
    AcceptedIff(s.file, local, request, writable);
    if Answer(s.file, local, request, writable).Accepted? {
      var i :| 0 <= i < |s.written| && s.written[i] == s.views[client];
    }
  }

  /** A client that has just fetched a readable list gets every well-formed operation accepted that leaves at most twenty
      nodes, if the disk is willing; and what it gets back it need not fetch again. */
  lemma FreshOperationIsAccepted(s: Sys, local: string, client: nat, op: Operation)
    requires Read(s.file, local).Some?
    ensures var t := Next(s, local, Fetch(client));
            var u := Next(t, local, Send(client, op, true));
            && t.file == s.file && client in t.views && Some(t.views[client]) == Read(s.file, local)
            && (ValidOperation(op, local) && |Applied(Read(s.file, local).value.favorites, op)| <= 20 ==>
                  && u.file.Text? && u.file.state.favorites == Applied(Read(s.file, local).value.favorites, op)
                  && u.file.state.revision == Read(s.file, local).value.revision + 1
                  && u.file.size == |Json(u.file.state)| && u.views[client] == u.file.state)
  {
    hide Applied, ValidOperation, Json;
    assert Read(s.file, local).value.revision >= 0 && Read(s.file, local).value.local == local;
    hide Read;
  }

  /** The operation that a step gets accepted, if any. */
  function AcceptedOp(s: Sys, local: string, step: Step): seq<Operation> {
    if step.Send? && Answer(s.file, local, RequestOf(s, local, step.client, step.op), step.writable).Accepted?
    then [step.op] else []
  }

  /** The operations that were accepted, in order. */
  function AcceptedOps(file: File, local: string, steps: seq<Step>): seq<Operation>
    requires Read(file, local).Some?
  {
    if steps == [] then []
    else
      var init := steps[..|steps| - 1];
      AcceptedOps(file, local, init) + AcceptedOp(Run(file, local, init), local, steps[|steps| - 1])
  }

  function AppliedAll(items: seq<Item>, ops: seq<Operation>): seq<Item> {
    if ops == [] then items else Applied(AppliedAll(items, ops[..|ops| - 1]), ops[|ops| - 1])
  }

  lemma NextIsSerial(s: Sys, local: string, step: Step, base: int, items: seq<Item>, ops: seq<Operation>)
    requires Consistent(s, local, base) && Consistent(Next(s, local, step), local, base)
    requires s.written[|s.written| - 1].favorites == AppliedAll(items, ops) && |s.written| == |ops| + 1
    ensures var t, more := Next(s, local, step), ops + AcceptedOp(s, local, step);
            t.written[|t.written| - 1].favorites == AppliedAll(items, more) && |t.written| == |more| + 1
  {
    hide Answer, Read, Applied;
    if AcceptedOp(s, local, step) == [] {
      assert ops + [] == ops;
    } else {
      assert (ops + [step.op])[..|ops|] == ops;
      AcceptedIff(s.file, local, RequestOf(s, local, step.client, step.op), step.writable);
    }
  }

  /** Linearizability: the list at the end of every run is what the accepted operations make of the first one, applied
      one after another, and the revision has risen by their number. */
  lemma {:induction false} RunIsSerial(file: File, local: string, steps: seq<Step>, k: nat)
    requires Read(file, local).Some?
    requires 1 <= k <= 20000 && Read(file, local).value.revision + |steps| + 1 < Pow10(k)
    ensures var first, s, ops := Read(file, local).value, Run(file, local, steps), AcceptedOps(file, local, steps);
            && |s.written| == |ops| + 1
            && s.written[|ops|].favorites == AppliedAll(first.favorites, ops)
            && s.written[|ops|].revision == first.revision + |ops|
            && Read(s.file, local) == Some(s.written[|ops|])
  {
    hide Pow10, Read, Next, AcceptedOp;
    RunKeeps(file, local, steps, k);
    if steps != [] {
      var init := steps[..|steps| - 1];
      var first := Read(file, local).value;
      RunIsSerial(file, local, init, k);
      RunKeeps(file, local, init, k);
      NextIsSerial(Run(file, local, init), local, steps[|steps| - 1], first.revision, first.favorites,
                   AcceptedOps(file, local, init));
    }
  }
}
