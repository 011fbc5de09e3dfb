/** XML request bodies at the level of encoder tokens: what MarshalXML and the
    struct tags write, and a decoder by the same struct tags
    (pkg/jamf/models.go, encoding/xml). */
module Xml {
  import opened Wrappers
  import opened Models
  import opened Server

  // ---- Token streams ----

  datatype XmlToken = Start(name: string) | End(name: string) | Text(text: string)

  /** An open element: its name and the character data read in it so far. */
  datatype Open = Open(name: string, text: string)

  /** The names of the elements from the root down. */
  datatype Path = Root | Child(parent: Path, name: string)

  function Depth(p: Path): nat {
    if p == Root then 0 else Depth(p.parent) + 1
  }

  /** A closed element: the names leading to it, and its own character data. */
  datatype Leaf = Leaf(path: Path, text: string)

  datatype Reader = Reader(stack: seq<Open>, leaves: seq<Leaf>)

  function PathOf(stack: seq<Open>): Path {
    if stack == [] then Root else Child(PathOf(stack[..|stack| - 1]), stack[|stack| - 1].name)
  }

  /** Elements nest, ends match starts, and nothing stands outside the root. */
  function ReadToken(r: Reader, t: XmlToken): Option<Reader> {
    var n := |r.stack|;
    match t
    case Start(name) => if n == 0 && r.leaves != [] then None else Some(r.(stack := r.stack + [Open(name, "")]))
    case Text(text) =>
      if n == 0 then None
      else Some(r.(stack := r.stack[..n - 1] + [r.stack[n - 1].(text := r.stack[n - 1].text + text)]))
    case End(name) =>
      if n == 0 || r.stack[n - 1].name != name then None
      else Some(Reader(r.stack[..n - 1], r.leaves + [Leaf(PathOf(r.stack), r.stack[n - 1].text)]))
  }

  function Read(r: Reader, tokens: seq<XmlToken>): Option<Reader>
    decreases |tokens|
  {
    if tokens == [] then Some(r)
    else
      match ReadToken(r, tokens[0])
      case None => None
      case Some(r') => Read(r', tokens[1..])
  }

  /** The elements of a well-formed document, in the order they close. */
  function Parse(tokens: seq<XmlToken>): Option<seq<Leaf>> {
    match Read(Reader([], []), tokens)
    case None => None
    case Some(r) => if r.stack == [] && r.leaves != [] then Some(r.leaves) else None
  }

  /** The texts of the elements at a path, as a slice field collects them. */
  function Texts(leaves: seq<Leaf>, path: Path): seq<string> {
    if leaves == [] then []
    else (if leaves[0].path == path then [leaves[0].text] else []) + Texts(leaves[1..], path)
  }

  // ---- Writing ----

  function TextElement(name: string, text: string): seq<XmlToken> {
    [Start(name)] + (if text == "" then [] else [Text(text)]) + [End(name)]
  }

  const ITEM := "privilege"

  function ItemTokens(items: seq<string>): seq<XmlToken> {
    if items == [] then [] else ItemTokens(items[..|items| - 1]) + TextElement(ITEM, items[|items| - 1])
  }

  datatype Category = Category(name: string, items: seq<string>)

  function Categories(p: Privileges): seq<Category> {
    [Category("jss_objects", p.jssObjects), Category("jss_settings", p.jssSettings),
     Category("jss_actions", p.jssActions), Category("recon", p.recon),
     Category("casper_admin", p.casperAdmin), Category("casper_remote", p.casperRemote),
     Category("casper_imaging", p.casperImaging)]
  }

  /** EncodeElement of a category's items. */
  function CategoryElement(c: Category): seq<XmlToken> {
    [Start(c.name)] + ItemTokens(c.items) + [End(c.name)]
  }

  function CategoryTokens(c: Category): seq<XmlToken> {
    if c.items == [] then [] else CategoryElement(c)
  }

  function CategoriesTokens(cs: seq<Category>): seq<XmlToken> {
    if cs == [] then [] else CategoriesTokens(cs[..|cs| - 1]) + CategoryTokens(cs[|cs| - 1])
  }

  function PrivilegesTokens(p: Privileges, start: string): seq<XmlToken> {
    [Start(start)] + CategoriesTokens(Categories(p)) + [End(start)]
  }

  lemma CategoriesTokensSnoc(cs: seq<Category>, i: nat)
    requires i < |cs|
    ensures CategoriesTokens(cs[..i + 1]) ==
            CategoriesTokens(cs[..i]) + if cs[i].items == [] then [] else CategoryElement(cs[i])
  {
    assert cs[..i + 1][..i] == cs[..i];
  }

  /** The loop of MarshalXML: only the categories that are not empty. */
  method EncodeCategories(categories: seq<Category>) returns (tokens: seq<XmlToken>)
    ensures tokens == CategoriesTokens(categories)
  {
    hide CategoryElement;
    tokens := [];
    for i := 0 to |categories|
      invariant tokens == CategoriesTokens(categories[..i])
    {
      CategoriesTokensSnoc(categories, i);
      if categories[i].items == [] {
        continue;
      }
      tokens := tokens + CategoryElement(categories[i]);
    }
    assert categories[..|categories|] == categories;
  }

  method MarshalXML(p: Privileges, start: string) returns (tokens: seq<XmlToken>)
    ensures tokens == PrivilegesTokens(p, start)
  {
    hide CategoriesTokens, Categories;
    var inner := EncodeCategories(Categories(p));
    tokens := [Start(start)] + inner + [End(start)];
  }

  datatype BodyField = BodyField(name: string, text: string, omitEmpty: bool)

  function Fields(b: UserAccountCreateBody): seq<BodyField> {
    [BodyField("name", b.name, false), BodyField("password", b.password, false),
     BodyField("full_name", b.fullName, true), BodyField("email", b.email, true),
     BodyField("enabled", b.enabled, true), BodyField("access_level", b.accessLevel, true),
     BodyField("privilege_set", b.privilegeSet, true)]
  }

  function FieldsTokens(fs: seq<BodyField>): seq<XmlToken> {
    if fs == [] then []
    else
      var f := fs[|fs| - 1];
      FieldsTokens(fs[..|fs| - 1]) + if f.omitEmpty && f.text == "" then [] else TextElement(f.name, f.text)
  }

  const ACCOUNT := "account"
  const PRIVILEGES := "privileges"

  /** The whole account body: a nil Privileges pointer is left out. */
  function AccountTokens(b: UserAccountCreateBody): seq<XmlToken> {
    var privileges := if b.privileges.None? then [] else PrivilegesTokens(b.privileges.value, PRIVILEGES);
    [Start(ACCOUNT)] + (FieldsTokens(Fields(b)) + privileges) + [End(ACCOUNT)]
  }

  // ---- What is on the wire ----

  lemma ItemsOnTheWire(items: seq<string>, last: string)
    ensures ItemTokens([]) == []
    ensures ItemTokens(items + [last]) ==
            ItemTokens(items) + ([Start("privilege")] + (if last == "" then [] else [Text(last)]) + [End("privilege")])
  {
    assert (items + [last])[..|items|] == items;
  }

  lemma SevenCategories(cs: seq<Category>)
    requires |cs| == 7
    ensures CategoriesTokens(cs) ==
            CategoryTokens(cs[0]) + CategoryTokens(cs[1]) + CategoryTokens(cs[2]) + CategoryTokens(cs[3])
            + CategoryTokens(cs[4]) + CategoryTokens(cs[5]) + CategoryTokens(cs[6])
  {
    hide CategoryTokens;
    forall i | 0 <= i < 7
      ensures CategoriesTokens(cs[..i + 1]) == CategoriesTokens(cs[..i]) + CategoryTokens(cs[i])
    {
      assert cs[..i + 1][..i] == cs[..i];
    }
    assert CategoriesTokens(cs[..0]) == [] && cs[..6 + 1] == cs;
    hide CategoriesTokens;
    assert CategoriesTokens(cs[..2 + 1]) == CategoryTokens(cs[0]) + CategoryTokens(cs[1]) + CategoryTokens(cs[2]);
    assert CategoriesTokens(cs[..5 + 1]) == CategoriesTokens(cs[..4 + 1]) + CategoryTokens(cs[5]);
  }

  /** A privileges element: each category that is not empty, by its name. */
  lemma PrivilegesOnTheWire(p: Privileges, start: string)
    ensures PrivilegesTokens(p, start) ==
            [Start(start)]
            + ((if p.jssObjects == [] then [] else [Start("jss_objects")] + ItemTokens(p.jssObjects) + [End("jss_objects")])
             + (if p.jssSettings == [] then [] else [Start("jss_settings")] + ItemTokens(p.jssSettings) + [End("jss_settings")])
             + (if p.jssActions == [] then [] else [Start("jss_actions")] + ItemTokens(p.jssActions) + [End("jss_actions")])
             + (if p.recon == [] then [] else [Start("recon")] + ItemTokens(p.recon) + [End("recon")])
             + (if p.casperAdmin == [] then [] else [Start("casper_admin")] + ItemTokens(p.casperAdmin) + [End("casper_admin")])
             + (if p.casperRemote == [] then [] else [Start("casper_remote")] + ItemTokens(p.casperRemote) + [End("casper_remote")])
             + (if p.casperImaging == [] then [] else [Start("casper_imaging")] + ItemTokens(p.casperImaging) + [End("casper_imaging")]))
            + [End(start)]
  {
    hide ItemTokens, CategoriesTokens;
    SevenCategories(Categories(p));
  }

  lemma SevenFields(fs: seq<BodyField>)
    requires |fs| == 7
    ensures FieldsTokens(fs) ==
            FieldsTokens([fs[0]]) + FieldsTokens([fs[1]]) + FieldsTokens([fs[2]]) + FieldsTokens([fs[3]])
            + FieldsTokens([fs[4]]) + FieldsTokens([fs[5]]) + FieldsTokens([fs[6]])
  {
    hide TextElement;
    forall i | 0 <= i < 7
      ensures FieldsTokens(fs[..i + 1]) == FieldsTokens(fs[..i]) + FieldsTokens([fs[i]])
    {
      assert fs[..i + 1][..i] == fs[..i];
      OneField(fs[i]);
    }
    assert FieldsTokens(fs[..0]) == [] && fs[..6 + 1] == fs;
    hide FieldsTokens;
    assert FieldsTokens(fs[..2 + 1]) == FieldsTokens([fs[0]]) + FieldsTokens([fs[1]]) + FieldsTokens([fs[2]]);
    assert FieldsTokens(fs[..5 + 1]) == FieldsTokens(fs[..4 + 1]) + FieldsTokens([fs[5]]);
  }

  lemma OneField(f: BodyField)
    ensures FieldsTokens([f]) ==
            if f.text == "" then (if f.omitEmpty then [] else [Start(f.name), End(f.name)])
            else [Start(f.name), Text(f.text), End(f.name)]
  {
    assert [f][..0] == [];
  }

  /** A whole account body: every field by its name, empty ones left out but for
      the name and the password, and a privileges element when there is one. */
  lemma AccountOnTheWire(b: UserAccountCreateBody)
    ensures AccountTokens(b) ==
            [Start("account")]
            + ((if b.name == "" then [Start("name"), End("name")] else [Start("name"), Text(b.name), End("name")])
             + (if b.password == "" then [Start("password"), End("password")] else [Start("password"), Text(b.password), End("password")])
             + (if b.fullName == "" then [] else [Start("full_name"), Text(b.fullName), End("full_name")])
             + (if b.email == "" then [] else [Start("email"), Text(b.email), End("email")])
             + (if b.enabled == "" then [] else [Start("enabled"), Text(b.enabled), End("enabled")])
             + (if b.accessLevel == "" then [] else [Start("access_level"), Text(b.accessLevel), End("access_level")])
             + (if b.privilegeSet == "" then [] else [Start("privilege_set"), Text(b.privilegeSet), End("privilege_set")])
             + (if b.privileges.None? then [] else PrivilegesTokens(b.privileges.value, "privileges")))
            + [End("account")]
  {
    hide FieldsTokens, PrivilegesTokens;
    var fs := Fields(b);
    SevenFields(fs);
    OneField(fs[0]);
    OneField(fs[1]);
    OneField(fs[2]);
    OneField(fs[3]);
    OneField(fs[4]);
    OneField(fs[5]);
    OneField(fs[6]);
  }

  // ---- Reading by the struct tags ----

  function DecodePrivileges(leaves: seq<Leaf>, prefix: Path): Privileges {
    Privileges(
      Texts(leaves, Child(Child(prefix, "jss_objects"), ITEM)), Texts(leaves, Child(Child(prefix, "jss_settings"), ITEM)),
      Texts(leaves, Child(Child(prefix, "jss_actions"), ITEM)), Texts(leaves, Child(Child(prefix, "recon"), ITEM)),
      Texts(leaves, Child(Child(prefix, "casper_admin"), ITEM)), Texts(leaves, Child(Child(prefix, "casper_remote"), ITEM)),
      Texts(leaves, Child(Child(prefix, "casper_imaging"), ITEM)))
  }

  /** A text field: the last element of its name, empty when there is none. */
  function Field(leaves: seq<Leaf>, name: string): string {
    var texts := Texts(leaves, Child(Child(Root, ACCOUNT), name));
    if texts == [] then "" else texts[|texts| - 1]
  }

  function DecodeAccount(tokens: seq<XmlToken>): Option<UserAccountCreateBody> {
    match Parse(tokens)
    case None => None
    case Some(leaves) =>
      if leaves[|leaves| - 1].path != Child(Root, ACCOUNT) then None
      else Some(UserAccountCreateBody(
                  Field(leaves, "name"), Field(leaves, "password"), Field(leaves, "full_name"), Field(leaves, "email"),
                  Field(leaves, "enabled"), Field(leaves, "access_level"), Field(leaves, "privilege_set"),
                  if Texts(leaves, Child(Child(Root, ACCOUNT), PRIVILEGES)) == [] then None
                  else Some(DecodePrivileges(leaves, Child(Child(Root, ACCOUNT), PRIVILEGES)))))
  }

  // ---- What a decoder sees of what was written ----

  lemma {:induction false} ReadConcat(r: Reader, a: seq<XmlToken>, b: seq<XmlToken>)
    ensures Read(r, a + b) == match Read(r, a) case None => None case Some(r') => Read(r', b)
    decreases |a|
  {
    if a == [] {
      assert a + b == b;
    } else {
      assert (a + b)[0] == a[0] && (a + b)[1..] == a[1..] + b;
      match ReadToken(r, a[0])
      case None =>
      case Some(r') => ReadConcat(r', a[1..], b);
    }
  }

  /** `tokens`, read inside an open element at `path`, close exactly `leaves`
      and leave that element as it was. */
  ghost predicate Closes(tokens: seq<XmlToken>, path: Path, leaves: seq<Leaf>) {
    forall r: Reader {:trigger Read(r, tokens)} :: r.stack != [] && PathOf(r.stack) == path ==>
      Read(r, tokens) == Some(r.(leaves := r.leaves + leaves))
  }

  lemma ClosesNothing(path: Path)
    ensures Closes([], path, [])
  {
    assert forall r: Reader :: r.leaves + [] == r.leaves;
  }

  lemma ClosesConcat(a: seq<XmlToken>, b: seq<XmlToken>, path: Path, la: seq<Leaf>, lb: seq<Leaf>)
    requires Closes(a, path, la) && Closes(b, path, lb)
    ensures Closes(a + b, path, la + lb)
  {
    hide Read, PathOf;
    forall r: Reader | r.stack != [] && PathOf(r.stack) == path
      ensures Read(r, a + b) == Some(r.(leaves := r.leaves + (la + lb)))
    {
      ReadConcat(r, a, b);
      var r1 := r.(leaves := r.leaves + la);
      assert Read(r, a) == Some(r1) && Read(r1, b) == Some(r1.(leaves := r1.leaves + lb));
      assert r.leaves + (la + lb) == r1.leaves + lb;
    }
  }

  lemma ReadStart(r: Reader, name: string, rest: seq<XmlToken>)
    requires r.stack != [] || r.leaves == []
    ensures Read(r, [Start(name)] + rest) == Read(r.(stack := r.stack + [Open(name, "")]), rest)
    ensures PathOf(r.stack + [Open(name, "")]) == Child(PathOf(r.stack), name)
  {
    assert ([Start(name)] + rest)[1..] == rest;
  }

  lemma ReadEnd(stack: seq<Open>, name: string, text: string, leaves: seq<Leaf>)
    ensures Read(Reader(stack + [Open(name, text)], leaves), [End(name)]) ==
            Some(Reader(stack, leaves + [Leaf(Child(PathOf(stack), name), text)]))
  {
    var full := stack + [Open(name, text)];
    assert full[..|full| - 1] == stack && PathOf(full) == Child(PathOf(stack), name);
    assert [End(name)][1..] == [];
  }

  lemma ReadElement(r: Reader, name: string, inner: seq<XmlToken>, leaves: seq<Leaf>)
    requires r.stack != [] || r.leaves == []
    requires Closes(inner, Child(PathOf(r.stack), name), leaves)
    ensures Read(r, [Start(name)] + inner + [End(name)]) ==
            Some(r.(leaves := r.leaves + (leaves + [Leaf(Child(PathOf(r.stack), name), "")])))
  {
    assert [Start(name)] + inner + [End(name)] == [Start(name)] + (inner + [End(name)]);
    ReadStart(r, name, inner + [End(name)]);
    var r1 := r.(stack := r.stack + [Open(name, "")]);
    hide Read, ReadToken, PathOf;
    assert Read(r1, inner) == Some(r1.(leaves := r.leaves + leaves));
    ReadConcat(r1, inner, [End(name)]);
    ReadEnd(r.stack, name, "", r.leaves + leaves);
    assert (r.leaves + leaves) + [Leaf(Child(PathOf(r.stack), name), "")]
        == r.leaves + (leaves + [Leaf(Child(PathOf(r.stack), name), "")]);
  }

  lemma ClosesElement(name: string, inner: seq<XmlToken>, path: Path, leaves: seq<Leaf>)
    requires Closes(inner, Child(path, name), leaves)
    ensures Closes([Start(name)] + inner + [End(name)], path, leaves + [Leaf(Child(path, name), "")])
  {
    hide Read;
    forall r: Reader | r.stack != [] && PathOf(r.stack) == path
      ensures Read(r, [Start(name)] + inner + [End(name)]) ==
              Some(r.(leaves := r.leaves + (leaves + [Leaf(Child(path, name), "")])))
    {
      ReadElement(r, name, inner, leaves);
    }
  }

  lemma ClosesTextElement(name: string, text: string, path: Path)
    ensures Closes(TextElement(name, text), path, [Leaf(Child(path, name), text)])
  {
    forall r: Reader | r.stack != [] && PathOf(r.stack) == path
      ensures Read(r, TextElement(name, text)) == Some(r.(leaves := r.leaves + [Leaf(Child(path, name), text)]))
    {
      var content := if text == "" then [] else [Text(text)];
      var r1 := r.(stack := r.stack + [Open(name, "")]);
      var r2 := r.(stack := r.stack + [Open(name, text)]);
      assert Read(r1, content) == Some(r2) by {
        assert r1.stack[..|r1.stack| - 1] == r.stack && "" + text == text && content[|content|..] == [];
      }
      assert TextElement(name, text) == [Start(name)] + (content + [End(name)]);
      ReadStart(r, name, content + [End(name)]);
      hide Read, ReadToken, PathOf, TextElement;
      ReadConcat(r1, content, [End(name)]);
      ReadEnd(r.stack, name, text, r.leaves);
    }
  }

  function ItemLeaves(path: Path, items: seq<string>): seq<Leaf> {
    if items == [] then []
    else ItemLeaves(path, items[..|items| - 1]) + [Leaf(Child(path, ITEM), items[|items| - 1])]
  }

  function CategoryLeaves(path: Path, c: Category): seq<Leaf> {
    if c.items == [] then [] else ItemLeaves(Child(path, c.name), c.items) + [Leaf(Child(path, c.name), "")]
  }

  function CategoriesLeaves(path: Path, cs: seq<Category>): seq<Leaf> {
    if cs == [] then []
    else CategoriesLeaves(path, cs[..|cs| - 1]) + CategoryLeaves(path, cs[|cs| - 1])
  }

  lemma {:induction false} ClosesItems(path: Path, items: seq<string>)
    ensures Closes(ItemTokens(items), path, ItemLeaves(path, items))
  {
    hide Closes, TextElement;
    if items == [] {
      ClosesNothing(path);
    } else {
      var n := |items| - 1;
      ClosesItems(path, items[..n]);
      ClosesTextElement(ITEM, items[n], path);
      ClosesConcat(ItemTokens(items[..n]), TextElement(ITEM, items[n]), path,
                   ItemLeaves(path, items[..n]), [Leaf(Child(path, ITEM), items[n])]);
    }
  }

  lemma {:induction false} ClosesCategories(path: Path, cs: seq<Category>)
    ensures Closes(CategoriesTokens(cs), path, CategoriesLeaves(path, cs))
  {
    hide Closes, ItemTokens, ItemLeaves;
    ClosesNothing(path);
    if cs != [] {
      var n := |cs| - 1;
      ClosesCategories(path, cs[..n]);
      if cs[n].items != [] {
        ClosesItems(Child(path, cs[n].name), cs[n].items);
        ClosesElement(cs[n].name, ItemTokens(cs[n].items), path, ItemLeaves(Child(path, cs[n].name), cs[n].items));
      }
      ClosesConcat(CategoriesTokens(cs[..n]), CategoryTokens(cs[n]), path,
                   CategoriesLeaves(path, cs[..n]), CategoryLeaves(path, cs[n]));
    }
  }

  // ---- Picking texts out of leaves ----

  lemma {:induction false} TextsConcat(a: seq<Leaf>, b: seq<Leaf>, path: Path)
    ensures Texts(a + b, path) == Texts(a, path) + Texts(b, path)
  {
    if a == [] {
      assert a + b == b;
    } else {
      assert (a + b)[0] == a[0] && (a + b)[1..] == a[1..] + b;
      TextsConcat(a[1..], b, path);
    }
  }

  lemma TextsOfOne(leaf: Leaf, path: Path)
    ensures Texts([leaf], path) == if leaf.path == path then [leaf.text] else []
  {
    assert Texts([leaf][1..], path) == [];
  }

  lemma TextsOfNothing(path: Path)
    ensures Texts([], path) == []
  {
  }

  lemma TextsSnoc(leaves: seq<Leaf>, leaf: Leaf, path: Path)
    ensures Texts(leaves + [leaf], path) == Texts(leaves, path) + if leaf.path == path then [leaf.text] else []
  {
    TextsConcat(leaves, [leaf], path);
    TextsOfOne(leaf, path);
  }

  lemma {:induction false} TextsOfItems(path: Path, items: seq<string>, q: Path)
    ensures Texts(ItemLeaves(path, items), q) == if q == Child(path, ITEM) then items else []
  {
    hide Texts;
    assert Texts([], q) == [] by {
      TextsOfNothing(q);
    }
    if items != [] {
      var n := |items| - 1;
      var before, last := ItemLeaves(path, items[..n]), Leaf(Child(path, ITEM), items[n]);
      assert ItemLeaves(path, items) == before + [last];
      TextsOfItems(path, items[..n], q);
      TextsSnoc(before, last, q);
      assert items[..n] + [items[n]] == items;
    }
  }

  lemma TextsOfCategory(path: Path, c: Category, name: string)
    ensures Texts(CategoryLeaves(path, c), Child(Child(path, name), ITEM)) == if c.name == name then c.items else []
    ensures Texts(CategoryLeaves(path, c), Child(path, name)) == if c.name == name && c.items != [] then [""] else []
    ensures forall q :: Depth(q) <= Depth(path) ==> Texts(CategoryLeaves(path, c), q) == []
  {
    forall q: Path
      ensures Texts(CategoryLeaves(path, c), q) ==
              (if q == Child(Child(path, c.name), ITEM) then c.items else [])
              + (if q == Child(path, c.name) && c.items != [] then [""] else [])
    {
      if c.items != [] {
        TextsOfItems(Child(path, c.name), c.items, q);
        TextsConcat(ItemLeaves(Child(path, c.name), c.items), [Leaf(Child(path, c.name), "")], q);
        TextsOfOne(Leaf(Child(path, c.name), ""), q);
      }
    }
    hide Texts, CategoryLeaves, ItemLeaves;
    assert Depth(Child(Child(path, c.name), ITEM)) == Depth(path) + 2 && Depth(Child(path, c.name)) == Depth(path) + 1;
    assert Depth(Child(Child(path, name), ITEM)) == Depth(path) + 2 && Depth(Child(path, name)) == Depth(path) + 1;
  }

  predicate DistinctNames(cs: seq<Category>) {
    forall i, j :: 0 <= i < j < |cs| ==> cs[i].name != cs[j].name
  }

  predicate Named(cs: seq<Category>, name: string) {
    exists i :: 0 <= i < |cs| && cs[i].name == name
  }

  lemma {:induction false} TextsOutsideCategories(path: Path, cs: seq<Category>, name: string)
    ensures !Named(cs, name) ==> Texts(CategoriesLeaves(path, cs), Child(Child(path, name), ITEM)) == []
                                 && Texts(CategoriesLeaves(path, cs), Child(path, name)) == []
    ensures forall q :: Depth(q) <= Depth(path) ==> Texts(CategoriesLeaves(path, cs), q) == []
  {
    if cs != [] {
      var n := |cs| - 1;
      TextsOutsideCategories(path, cs[..n], name);
      TextsOfCategory(path, cs[n], name);
      forall q: Path
        ensures Texts(CategoriesLeaves(path, cs), q) ==
                Texts(CategoriesLeaves(path, cs[..n]), q) + Texts(CategoryLeaves(path, cs[n]), q)
      {
        LastCategory(path, cs, q);
      }
      hide Texts, CategoriesLeaves, CategoryLeaves;
      assert Named(cs[..n], name) ==> Named(cs, name);
      assert cs[n].name == name ==> Named(cs, name);
    }
  }

  lemma LastCategory(path: Path, cs: seq<Category>, q: Path)
    requires cs != []
    ensures var n := |cs| - 1;
            Texts(CategoriesLeaves(path, cs), q) ==
            Texts(CategoriesLeaves(path, cs[..n]), q) + Texts(CategoryLeaves(path, cs[n]), q)
  {
    TextsConcat(CategoriesLeaves(path, cs[..|cs| - 1]), CategoryLeaves(path, cs[|cs| - 1]), q);
  }

  lemma TextsOfLastCategory(path: Path, cs: seq<Category>)
    requires cs != [] && !Named(cs[..|cs| - 1], cs[|cs| - 1].name)
    ensures var c := cs[|cs| - 1];
            && Texts(CategoriesLeaves(path, cs), Child(Child(path, c.name), ITEM)) == c.items
            && Texts(CategoriesLeaves(path, cs), Child(path, c.name)) == if c.items == [] then [] else [""]
  {
    var c := cs[|cs| - 1];
    LastCategory(path, cs, Child(Child(path, c.name), ITEM));
    LastCategory(path, cs, Child(path, c.name));
    hide CategoriesLeaves, CategoryLeaves, Texts, Depth, Named;
    TextsOfCategory(path, c, c.name);
    TextsOutsideCategories(path, cs[..|cs| - 1], c.name);
  }

  lemma TextsOfEarlierCategory(path: Path, cs: seq<Category>, name: string)
    requires cs != [] && cs[|cs| - 1].name != name
    ensures Texts(CategoriesLeaves(path, cs), Child(Child(path, name), ITEM))
         == Texts(CategoriesLeaves(path, cs[..|cs| - 1]), Child(Child(path, name), ITEM))
    ensures Texts(CategoriesLeaves(path, cs), Child(path, name))
         == Texts(CategoriesLeaves(path, cs[..|cs| - 1]), Child(path, name))
  {
    LastCategory(path, cs, Child(Child(path, name), ITEM));
    LastCategory(path, cs, Child(path, name));
    hide CategoriesLeaves, CategoryLeaves, Texts, Depth;
    TextsOfCategory(path, cs[|cs| - 1], name);
  }

  /** A category comes back with its items, and its element is there exactly
      when it has any. */
  lemma {:induction false} TextsOfCategories(path: Path, cs: seq<Category>, k: nat)
    requires k < |cs| && DistinctNames(cs)
    ensures Texts(CategoriesLeaves(path, cs), Child(Child(path, cs[k].name), ITEM)) == cs[k].items
    ensures Texts(CategoriesLeaves(path, cs), Child(path, cs[k].name)) == if cs[k].items == [] then [] else [""]
  {
    hide CategoriesLeaves, Texts;
    var n := |cs| - 1;
    if k < n {
      assert cs[..n][k] == cs[k];
      TextsOfEarlierCategory(path, cs, cs[k].name);
      TextsOfCategories(path, cs[..n], k);
    } else {
      TextsOfLastCategory(path, cs);
    }
  }

  lemma CategoriesAreDistinct(p: Privileges)
    ensures DistinctNames(Categories(p))
  {
    var cs := Categories(p);
    assert cs[0].name[4] == 'o' && cs[1].name[4] == 's' && cs[2].name[4] == 'a' && cs[3].name[0] == 'r';
    assert cs[4].name[7] == 'a' && cs[5].name[7] == 'r' && cs[6].name[7] == 'i';
    assert |cs[4].name| == 12 && |cs[5].name| == 13 && |cs[6].name| == 14 && |cs[0].name| == 11;
    assert |cs[1].name| == 12 && cs[1].name[0] == 'j' && cs[4].name[0] == 'c' && |cs[2].name| == 11 && |cs[3].name| == 5;
  }

  lemma DecodePrivilegesOfLeaves(path: Path, p: Privileges)
    ensures DecodePrivileges(CategoriesLeaves(path, Categories(p)), path) == p
  {
    CategoriesAreDistinct(p);
    forall k | 0 <= k < 7
      ensures Texts(CategoriesLeaves(path, Categories(p)), Child(Child(path, Categories(p)[k].name), ITEM))
           == Categories(p)[k].items
    {
      TextsOfCategories(path, Categories(p), k);
    }
    hide Texts, CategoriesLeaves;
    var cs := Categories(p);
    assert cs[0].items == p.jssObjects && cs[1].items == p.jssSettings && cs[2].items == p.jssActions
        && cs[3].items == p.recon && cs[4].items == p.casperAdmin && cs[5].items == p.casperRemote
        && cs[6].items == p.casperImaging;
  }

  lemma DecodeDependsOnTextsBelow(a: seq<Leaf>, b: seq<Leaf>, at: Path)
    requires forall q :: Depth(q) > Depth(at) ==> Texts(a, q) == Texts(b, q)
    ensures DecodePrivileges(a, at) == DecodePrivileges(b, at)
  {
    hide Texts;
    assert forall name :: Depth(Child(Child(at, name), ITEM)) > Depth(at);
  }

  /** The element around them does not disturb what is below it. */
  lemma TextsBelow(inner: seq<Leaf>, at: Path)
    ensures forall q :: Depth(q) > Depth(at) ==> Texts(inner + [Leaf(at, "")], q) == Texts(inner, q)
    ensures DecodePrivileges(inner + [Leaf(at, "")], at) == DecodePrivileges(inner, at)
    ensures Texts(inner + [Leaf(at, "")], at) == Texts(inner, at) + [""]
  {
    forall q: Path
      ensures Texts(inner + [Leaf(at, "")], q) == Texts(inner, q) + if q == at then [""] else []
    {
      TextsConcat(inner, [Leaf(at, "")], q);
      TextsOfOne(Leaf(at, ""), q);
    }
    DecodeDependsOnTextsBelow(inner + [Leaf(at, "")], inner, at);
  }

  lemma PrivilegesParse(p: Privileges, start: string)
    ensures Parse(PrivilegesTokens(p, start)) ==
            Some(CategoriesLeaves(Child(Root, start), Categories(p)) + [Leaf(Child(Root, start), "")])
  {
    hide CategoriesLeaves, CategoriesTokens, Categories;
    var at := Child(Root, start);
    var inner := CategoriesLeaves(at, Categories(p));
    ClosesCategories(at, Categories(p));
    var r := Reader([], []);
    assert PathOf(r.stack) == Root;
    ReadElement(r, start, CategoriesTokens(Categories(p)), inner);
    assert [] + (inner + [Leaf(at, "")]) == inner + [Leaf(at, "")];
    hide Read;
  }

  /** The Privileges round trip, for all values, written under any element
      name: the stream is well-formed, its decoding by the struct tags gives the
      value back, and a category's element is there exactly when it has items. */
  lemma PrivilegesRoundTrip(p: Privileges, start: string)
    ensures var parsed := Parse(PrivilegesTokens(p, start));
            var at := Child(Root, start);
            && parsed.Some?
            && DecodePrivileges(parsed.value, at) == p
            && forall k :: 0 <= k < |Categories(p)| ==>
                 (Texts(parsed.value, Child(at, Categories(p)[k].name)) == [] <==> Categories(p)[k].items == [])
  {
    PrivilegesParse(p, start);
    CategoriesAreDistinct(p);
    var at := Child(Root, start);
    hide Parse, PrivilegesTokens, Categories, CategoriesLeaves, Texts;
    var inner := CategoriesLeaves(at, Categories(p));
    DecodePrivilegesOfLeaves(at, p);
    TextsBelow(inner, at);
    forall k | 0 <= k < |Categories(p)|
      ensures Texts(inner + [Leaf(at, "")], Child(at, Categories(p)[k].name)) == [] <==> Categories(p)[k].items == []
    {
      TextsOfCategories(at, Categories(p), k);
      assert Depth(Child(at, Categories(p)[k].name)) > Depth(at);
    }
  }

  // ---- The account body ----

  function FieldLeaves(f: BodyField): seq<Leaf> {
    if f.omitEmpty && f.text == "" then [] else [Leaf(Child(Child(Root, ACCOUNT), f.name), f.text)]
  }

  function FieldsLeaves(fs: seq<BodyField>): seq<Leaf> {
    if fs == [] then [] else FieldsLeaves(fs[..|fs| - 1]) + FieldLeaves(fs[|fs| - 1])
  }

  lemma {:induction false} ClosesFields(fs: seq<BodyField>)
    ensures Closes(FieldsTokens(fs), Child(Root, ACCOUNT), FieldsLeaves(fs))
  {
    hide Closes, TextElement;
    ClosesNothing(Child(Root, ACCOUNT));
    if fs != [] {
      var n := |fs| - 1;
      var f := fs[n];
      ClosesFields(fs[..n]);
      ClosesTextElement(f.name, f.text, Child(Root, ACCOUNT));
      ClosesConcat(FieldsTokens(fs[..n]), if f.omitEmpty && f.text == "" then [] else TextElement(f.name, f.text),
                   Child(Root, ACCOUNT), FieldsLeaves(fs[..n]), FieldLeaves(f));
    }
  }

  lemma TextsOfLastField(fs: seq<BodyField>, q: Path)
    requires fs != []
    ensures var f := fs[|fs| - 1];
            Texts(FieldsLeaves(fs), q) == Texts(FieldsLeaves(fs[..|fs| - 1]), q)
            + if q == Child(Child(Root, ACCOUNT), f.name) && !(f.omitEmpty && f.text == "") then [f.text] else []
  {
    var before, f := FieldsLeaves(fs[..|fs| - 1]), fs[|fs| - 1];
    TextsSnoc(before, Leaf(Child(Child(Root, ACCOUNT), f.name), f.text), q);
    assert before + [] == before;
    hide Texts;
  }

  /** Elements of other names leave no text. */
  lemma {:induction false} TextsOutsideFields(fs: seq<BodyField>, q: Path)
    requires forall i :: 0 <= i < |fs| ==> q != Child(Child(Root, ACCOUNT), fs[i].name)
    ensures Texts(FieldsLeaves(fs), q) == []
  {
    if fs != [] {
      TextsOfLastField(fs, q);
      hide Texts, FieldsLeaves;
      TextsOutsideFields(fs[..|fs| - 1], q);
    }
  }

  lemma {:induction false} TextsOfFields(fs: seq<BodyField>, k: nat)
    requires k < |fs| && forall i, j :: 0 <= i < j < |fs| ==> fs[i].name != fs[j].name
    ensures Texts(FieldsLeaves(fs), Child(Child(Root, ACCOUNT), fs[k].name)) ==
            if fs[k].omitEmpty && fs[k].text == "" then [] else [fs[k].text]
  {
    hide Texts, FieldsLeaves;
    var n := |fs| - 1;
    var q := Child(Child(Root, ACCOUNT), fs[k].name);
    TextsOfLastField(fs, q);
    if k < n {
      assert fs[..n][k] == fs[k];
      TextsOfFields(fs[..n], k);
    } else {
      TextsOutsideFields(fs[..n], q);
    }
  }

  function PrivilegesLeaves(p: Option<Privileges>): seq<Leaf> {
    var at := Child(Child(Root, ACCOUNT), PRIVILEGES);
    if p.None? then [] else CategoriesLeaves(at, Categories(p.value)) + [Leaf(at, "")]
  }

  lemma ClosesPrivileges(p: Option<Privileges>)
    ensures Closes(if p.None? then [] else PrivilegesTokens(p.value, PRIVILEGES), Child(Root, ACCOUNT), PrivilegesLeaves(p))
  {
    hide Closes, CategoriesTokens, CategoriesLeaves, Categories;
    ClosesNothing(Child(Root, ACCOUNT));
    if p.Some? {
      var at := Child(Child(Root, ACCOUNT), PRIVILEGES);
      ClosesCategories(at, Categories(p.value));
      ClosesElement(PRIVILEGES, CategoriesTokens(Categories(p.value)), Child(Root, ACCOUNT),
                    CategoriesLeaves(at, Categories(p.value)));
    }
  }

  lemma TextsOfPrivileges(p: Privileges, name: string)
    ensures var at := Child(Child(Root, ACCOUNT), PRIVILEGES);
            && Texts(PrivilegesLeaves(Some(p)), at) == [""]
            && DecodePrivileges(PrivilegesLeaves(Some(p)), at) == p
            && (name != PRIVILEGES ==> Texts(PrivilegesLeaves(Some(p)), Child(Child(Root, ACCOUNT), name)) == [])
  {
    var at := Child(Child(Root, ACCOUNT), PRIVILEGES);
    var inner := CategoriesLeaves(at, Categories(p));
    TextsOutsideCategories(at, Categories(p), name);
    DecodePrivilegesOfLeaves(at, p);
    TextsBelow(inner, at);
    var q := Child(Child(Root, ACCOUNT), name);
    TextsConcat(inner, [Leaf(at, "")], q);
    TextsOfOne(Leaf(at, ""), q);
    hide Texts, CategoriesLeaves, Categories, DecodePrivileges;
  }

  /** The leaves of a whole account body. */
  function AccountLeaves(b: UserAccountCreateBody): seq<Leaf> {
    FieldsLeaves(Fields(b)) + PrivilegesLeaves(b.privileges) + [Leaf(Child(Root, ACCOUNT), "")]
  }

  lemma AccountParses(b: UserAccountCreateBody)
    ensures Parse(AccountTokens(b)) == Some(AccountLeaves(b))
  {
    hide Fields, FieldsTokens, FieldsLeaves, PrivilegesTokens, PrivilegesLeaves, Read, ReadToken;
    ClosesFields(Fields(b));
    ClosesPrivileges(b.privileges);
    var privileges := if b.privileges.None? then [] else PrivilegesTokens(b.privileges.value, PRIVILEGES);
    ClosesConcat(FieldsTokens(Fields(b)), privileges, Child(Root, ACCOUNT),
                 FieldsLeaves(Fields(b)), PrivilegesLeaves(b.privileges));
    var r := Reader([], []);
    assert PathOf(r.stack) == Root;
    ReadElement(r, ACCOUNT, FieldsTokens(Fields(b)) + privileges, FieldsLeaves(Fields(b)) + PrivilegesLeaves(b.privileges));
    assert [] + AccountLeaves(b) == AccountLeaves(b);
  }

  lemma FieldNamesAreDistinct(b: UserAccountCreateBody)
    ensures var fs := Fields(b);
            |fs| == 7 && (forall i, j :: 0 <= i < j < 7 ==> fs[i].name != fs[j].name)
            && (forall i :: 0 <= i < 7 ==> fs[i].name != PRIVILEGES)
  {
    var fs := Fields(b);
    assert fs[0].name[0] == 'n' && fs[1].name[1] == 'a' && fs[2].name[0] == 'f' && fs[3].name[1] == 'm';
    assert fs[4].name[1] == 'n' && fs[5].name[0] == 'a' && fs[6].name[9] == '_' && PRIVILEGES[9] == 's';
    assert fs[1].name[0] == 'p' && fs[6].name[1] == 'r' && fs[3].name[0] == 'e' && fs[4].name[0] == 'e';
  }

  lemma TextsOfAccount(b: UserAccountCreateBody, k: nat)
    requires k < |Fields(b)|
    ensures Field(AccountLeaves(b), Fields(b)[k].name) == Fields(b)[k].text
  {
    hide Fields, FieldsLeaves, PrivilegesLeaves, DecodePrivileges, Texts;
    FieldNamesAreDistinct(b);
    var f := Fields(b)[k];
    var q := Child(Child(Root, ACCOUNT), f.name);
    assert Depth(q) == 2 && Depth(Child(Root, ACCOUNT)) == 1;
    TextsOfFields(Fields(b), k);
    TextsConcat(FieldsLeaves(Fields(b)), PrivilegesLeaves(b.privileges), q);
    TextsSnoc(FieldsLeaves(Fields(b)) + PrivilegesLeaves(b.privileges), Leaf(Child(Root, ACCOUNT), ""), q);
    TextsOfPrivilegesOrNone(b.privileges, f.name);
  }

  lemma TextsOfPrivilegesOrNone(p: Option<Privileges>, name: string)
    requires name != PRIVILEGES
    ensures Texts(PrivilegesLeaves(p), Child(Child(Root, ACCOUNT), name)) == []
  {
    if p.Some? {
      TextsOfPrivileges(p.value, name);
    }
  }

  /** At the privileges element and below, only the privileges leave texts. */
  lemma TextsFromPrivileges(b: UserAccountCreateBody, q: Path)
    requires q == Child(Child(Root, ACCOUNT), PRIVILEGES) || Depth(q) > 2
    ensures Texts(AccountLeaves(b), q) == Texts(PrivilegesLeaves(b.privileges), q)
  {
    var fields, privileges, root := FieldsLeaves(Fields(b)), PrivilegesLeaves(b.privileges), [Leaf(Child(Root, ACCOUNT), "")];
    TextsConcat(fields, privileges, q);
    TextsConcat(fields + privileges, root, q);
    FieldNamesAreDistinct(b);
    hide Fields, FieldsLeaves, PrivilegesLeaves, Texts;
    assert Texts(fields, q) == [] by {
      forall i | 0 <= i < |Fields(b)|
        ensures q != Child(Child(Root, ACCOUNT), Fields(b)[i].name)
      {
        assert Depth(Child(Child(Root, ACCOUNT), Fields(b)[i].name)) == 2;
      }
      TextsOutsideFields(Fields(b), q);
    }
    assert Texts(root, q) == [] by {
      TextsOfOne(Leaf(Child(Root, ACCOUNT), ""), q);
      assert Depth(Child(Child(Root, ACCOUNT), PRIVILEGES)) == 2 && Depth(Child(Root, ACCOUNT)) == 1;
    }
  }

  /** A repeated element overwrites the field. */
  lemma FieldIsTheLast(leaves: seq<Leaf>, name: string, text: string)
    ensures Field(leaves + [Leaf(Child(Child(Root, "account"), name), text)], name) == text
  {
    TextsSnoc(leaves, Leaf(Child(Child(Root, ACCOUNT), name), text), Child(Child(Root, ACCOUNT), name));
    hide Texts;
  }

  lemma PrivilegesOfAccount(b: UserAccountCreateBody)
    ensures var at := Child(Child(Root, ACCOUNT), PRIVILEGES);
            && (Texts(AccountLeaves(b), at) == [] <==> b.privileges.None?)
            && (b.privileges.Some? ==> DecodePrivileges(AccountLeaves(b), at) == b.privileges.value)
  {
    var at := Child(Child(Root, ACCOUNT), PRIVILEGES);
    assert Depth(at) == 2;
    forall q: Path | q == at || Depth(q) > 2
      ensures Texts(AccountLeaves(b), q) == Texts(PrivilegesLeaves(b.privileges), q)
    {
      TextsFromPrivileges(b, q);
    }
    hide AccountLeaves, DecodePrivileges, Depth;
    DecodeDependsOnTextsBelow(AccountLeaves(b), PrivilegesLeaves(b.privileges), at);
    if b.privileges.Some? {
      TextsOfPrivileges(b.privileges.value, "");
    }
  }

  lemma FieldsOfAccount(b: UserAccountCreateBody)
    ensures var leaves := AccountLeaves(b);
            && leaves != [] && leaves[|leaves| - 1].path == Child(Root, ACCOUNT)
            && Field(leaves, "name") == b.name && Field(leaves, "password") == b.password
            && Field(leaves, "full_name") == b.fullName && Field(leaves, "email") == b.email
            && Field(leaves, "enabled") == b.enabled && Field(leaves, "access_level") == b.accessLevel
            && Field(leaves, "privilege_set") == b.privilegeSet
  {
    var leaves, fs := AccountLeaves(b), Fields(b);
    assert leaves[|leaves| - 1].path == Child(Root, ACCOUNT);
    hide AccountLeaves, Field;
    TextsOfAccount(b, 0);
    TextsOfAccount(b, 1);
    TextsOfAccount(b, 2);
    TextsOfAccount(b, 3);
    TextsOfAccount(b, 4);
    TextsOfAccount(b, 5);
    TextsOfAccount(b, 6);
    assert fs[0].name == "name" && fs[1].name == "password" && fs[2].name == "full_name" && fs[3].name == "email";
    assert fs[4].name == "enabled" && fs[5].name == "access_level" && fs[6].name == "privilege_set";
  }

  /** The round trip of a whole account body: what the server decodes is what
      the connector meant to send, for every body. */
  lemma AccountRoundTrip(b: UserAccountCreateBody)
    ensures DecodeAccount(AccountTokens(b)) == Some(b)
  {
    hide Parse, AccountTokens, AccountLeaves, Field, Texts, DecodePrivileges;
    AccountParses(b);
    PrivilegesOfAccount(b);
    FieldsOfAccount(b);
  }
}
