/**
 * Rules of the JSP tag compiler for a custom tag: which children a tag
 * with an empty body accepts, how taglib attribute definitions match the
 * attributes written on the tag, the tag variables filled from the tag
 * data, the declarations of tag variables at the start of the tag, the
 * attribute text of the XML view, and the search for scripting elements.
 */
module TagRules {
  import opened Wrappers

  datatype TagError =
    | MustBeEmpty                    // a body-content of `empty` with content
    | MissingAttribute(name: string) // a required attribute is not on the tag
    | UnexpectedAttribute(name: string)
    | IllegalVarName(name: string)   // not a Java identifier
    | EmptyVarName                   // `charAt(0)` of the empty name fails

  // The nodes of a JSP page.

  /**
   * A page node: an attribute node and an element hold children, static
   * text knows whether it is only whitespace, and the scripting elements
   * are the scriptlet and the expression.
   */
  datatype JspNode =
    | JspAttribute(children: seq<JspNode>)
    | StaticText(isWhitespace: bool)
    | JspScriptlet
    | JspExpression
    | Element(children: seq<JspNode>)

  /** A custom tag node: its body-content and the children added so far. */
  class CustomTag {
    const bodyContent: string
    var children: seq<JspNode>

    /** A tag whose body-content is `empty` holds attribute nodes only. */
    predicate Valid()
      reads this
    {
      bodyContent == "empty" ==> forall i :: 0 <= i < |children| ==> children[i].JspAttribute?
    }

    constructor (bodyContent: string)
      ensures this.bodyContent == bodyContent && children == []
      ensures Valid()
    {
      this.bodyContent := bodyContent;
      children := [];
    }

    /**
     * `addChild`: with a body-content other than `empty` every child is
     * added; with `empty` an attribute node is added, whitespace text is
     * dropped and anything else is an error.
     */
    method AddChild(node: JspNode) returns (res: Outcome<TagError>)
      requires Valid()
      modifies this
      ensures Valid()
      ensures res.Fail? <==> bodyContent == "empty" && !node.JspAttribute? && !(node.StaticText? && node.isWhitespace)
      ensures res.Fail? ==> res.error == MustBeEmpty
      ensures children == if bodyContent != "empty" || node.JspAttribute? then old(children) + [node] else old(children)
    {
      if bodyContent != "empty" {
        children := children + [node];
      } else if node.JspAttribute? {
        children := children + [node];
      } else if node.StaticText? && node.isWhitespace {
      } else {
        return Fail(MustBeEmpty);
      }
      return Pass;
    }
  }

  // Attribute names.

  /** The name of an attribute written on a tag: prefix, local name and the full name. */
  datatype AttrName = AttrName(prefix: string, localName: string, name: string)

  /** The full name of an XML name: `local` without a prefix, `prefix:local` with one. */
  function FullName(prefix: string, localName: string): string
  {
    if prefix == [] then localName else prefix + ":" + localName
  }

  /**
   * `isNameMatch`: a taglib attribute name matches an attribute written as
   * that full name, or as that local name with the tag's own prefix.
   */
  predicate IsNameMatch(defName: string, attr: AttrName, tagPrefix: string)
  {
    defName == attr.name || (defName == attr.localName && attr.prefix == tagPrefix)
  }

  /** True when the text holds no colon. */
  predicate ColonFree(s: string)
  {
    forall j :: 0 <= j < |s| ==> s[j] != ':'
  }

  /**
   * For an attribute whose full name is built from prefix and local name, a
   * definition name without a colon matches exactly the attribute of that
   * local name that has no prefix or the tag's prefix.
   */
  lemma NameMatchUnqualified(defName: string, attr: AttrName, tagPrefix: string)
    requires attr.name == FullName(attr.prefix, attr.localName) && ColonFree(defName)
    ensures IsNameMatch(defName, attr, tagPrefix) <==>
      defName == attr.localName && (attr.prefix == [] || attr.prefix == tagPrefix)
  {
    if attr.prefix != [] {
      assert attr.name[|attr.prefix|] == ':';
    }
  }

  /** `getAttributeIndex`: the first attribute the definition name matches, or -1. */
  method GetAttributeIndex(attrs: seq<AttrName>, defName: string, tagPrefix: string) returns (idx: int)
    ensures -1 <= idx < |attrs|
    ensures idx == -1 <==> forall i :: 0 <= i < |attrs| ==> !IsNameMatch(defName, attrs[i], tagPrefix)
    ensures idx >= 0 ==> IsNameMatch(defName, attrs[idx], tagPrefix)
    ensures idx >= 0 ==> forall i :: 0 <= i < idx ==> !IsNameMatch(defName, attrs[i], tagPrefix)
  {
    var i := 0;
    while i < |attrs|
      invariant 0 <= i <= |attrs|
      invariant forall j :: 0 <= j < i ==> !IsNameMatch(defName, attrs[j], tagPrefix)
    {
      if IsNameMatch(defName, attrs[i], tagPrefix) {
        return i;
      }
      i := i + 1;
    }
    return -1;
  }

  /** An attribute definition of the taglib. */
  datatype AttrInfo = AttrInfo(name: string, required: bool)

  /** `getAttributeInfo`: the first definition that matches an attribute, if any. */
  method GetAttributeInfo(defs: array?<AttrInfo>, attr: AttrName, tagPrefix: string) returns (r: Option<AttrInfo>)
    ensures r.None? <==> defs == null || forall j :: 0 <= j < defs.Length ==> !IsNameMatch(defs[j].name, attr, tagPrefix)
    ensures r.Some? ==>
      exists j :: 0 <= j < defs.Length && defs[j] == r.value && IsNameMatch(defs[j].name, attr, tagPrefix) &&
                  forall k :: 0 <= k < j ==> !IsNameMatch(defs[k].name, attr, tagPrefix)
  {
    if defs == null {
      return None;
    }
    var j := 0;
    while j < defs.Length
      invariant 0 <= j <= defs.Length
      invariant forall k :: 0 <= k < j ==> !IsNameMatch(defs[k].name, attr, tagPrefix)
    {
      if IsNameMatch(defs[j].name, attr, tagPrefix) {
        return Some(defs[j]);
      }
      j := j + 1;
    }
    return None;
  }

  /** Some attribute on the tag matches the definition name. */
  predicate Present(defName: string, attrs: seq<AttrName>, tagPrefix: string)
  {
    exists i :: 0 <= i < |attrs| && IsNameMatch(defName, attrs[i], tagPrefix)
  }

  /** A required definition that no attribute on the tag matches. */
  predicate Missing(d: AttrInfo, attrs: seq<AttrName>, tagPrefix: string)
  {
    d.required && !Present(d.name, attrs, tagPrefix)
  }

  /** Some definition matches the attribute. */
  predicate Known(attr: AttrName, defs: seq<AttrInfo>, tagPrefix: string)
  {
    exists j :: 0 <= j < |defs| && IsNameMatch(defs[j].name, attr, tagPrefix)
  }

  /**
   * The checks of `fillAttributes`: first every required definition must
   * match an attribute on the tag; then, unless the tag accepts dynamic
   * attributes, every attribute on the tag must match a definition.  A tag
   * without definitions is not checked.  The first failure is reported.
   */
  method FillAttributes(defs: array?<AttrInfo>, attrs: seq<AttrName>, tagPrefix: string, isDynamic: bool)
    returns (res: Outcome<TagError>)
    ensures res.Pass? <==> (defs == null ||
      ((forall k :: 0 <= k < defs.Length ==> !Missing(defs[k], attrs, tagPrefix)) &&
       (isDynamic || forall i :: 0 <= i < |attrs| ==> Known(attrs[i], defs[..], tagPrefix))))
    ensures res.Fail? && res.error.MissingAttribute? ==>
      exists k :: 0 <= k < defs.Length && defs[k].name == res.error.name && Missing(defs[k], attrs, tagPrefix)
        && forall k' :: 0 <= k' < k ==> !Missing(defs[k'], attrs, tagPrefix)
    ensures res.Fail? && !res.error.MissingAttribute? ==>
      && res.error.UnexpectedAttribute? && !isDynamic
      && (forall k :: 0 <= k < defs.Length ==> !Missing(defs[k], attrs, tagPrefix))
      && (exists i :: 0 <= i < |attrs| && attrs[i].name == res.error.name && !Known(attrs[i], defs[..], tagPrefix)
           && forall i' :: 0 <= i' < i ==> Known(attrs[i'], defs[..], tagPrefix))
  {
    if defs != null {
      var k := 0;
      while k < defs.Length
        invariant 0 <= k <= defs.Length
        invariant forall j :: 0 <= j < k ==> !Missing(defs[j], attrs, tagPrefix)
      {
        var p := GetAttributeIndex(attrs, defs[k].name, tagPrefix);
        if p < 0 && defs[k].required {
          return Fail(MissingAttribute(defs[k].name));
        }
        k := k + 1;
      }
    }
    var i := 0;
    while i < |attrs|
      invariant 0 <= i <= |attrs|
      invariant defs != null && !isDynamic ==> forall j :: 0 <= j < i ==> Known(attrs[j], defs[..], tagPrefix)
    {
      var attribute := GetAttributeInfo(defs, attrs[i], tagPrefix);
      if defs != null && attribute.None? && !isDynamic {
        return Fail(UnexpectedAttribute(attrs[i].name));
      }
      i := i + 1;
    }
    return Pass;
  }

  // Tag variables.

  datatype Scope = Nested | AtBegin | AtEnd

  /** A variable the tag library declares: a given name, or the attribute that names it. */
  datatype TagVarInfo = TagVarInfo(nameGiven: Option<string>, nameFromAttribute: string,
                                   className: Option<string>, declare: bool, scope: Scope)

  /** A tag variable with its name resolved. */
  datatype VarInfo = VarInfo(varName: string, className: Option<string>, declare: bool, scope: Scope)

  /** The string attributes of the tag data. */
  type TagData = map<string, string>

  /** The slot `fillVariableInfo` fills for one variable. */
  function VariableSlot(tv: TagVarInfo, data: TagData): Option<VarInfo>
  {
    match tv.nameGiven
    case Some(n) => Some(VarInfo(n, tv.className, tv.declare, tv.scope))
    case None =>
      if tv.nameFromAttribute in data then Some(VarInfo(data[tv.nameFromAttribute], tv.className, tv.declare, tv.scope))
      else None
  }

  /**
   * A slot stays null exactly when the variable has no given name and the
   * tag data has no attribute of the name-from-attribute; otherwise it
   * holds the given name, or else the attribute's value, with the
   * variable's class, declare flag and scope.
   */
  lemma VariableSlotMeaning(tv: TagVarInfo, data: TagData)
    ensures VariableSlot(tv, data).None? <==> tv.nameGiven.None? && tv.nameFromAttribute !in data
    ensures VariableSlot(tv, data).Some? ==>
      var v := VariableSlot(tv, data).value;
      && v.varName == (if tv.nameGiven.Some? then tv.nameGiven.value else data[tv.nameFromAttribute])
      && v.className == tv.className && v.declare == tv.declare && v.scope == tv.scope
  {
  }

  /** `fillVariableInfo`: null for null variables, else one slot per variable. */
  method FillVariableInfo(tagVars: array?<TagVarInfo>, data: TagData) returns (vars: array?<Option<VarInfo>>)
    ensures vars == null <==> tagVars == null
    ensures vars != null ==> fresh(vars) && vars.Length == tagVars.Length
    ensures vars != null ==> forall i :: 0 <= i < vars.Length ==> vars[i] == VariableSlot(tagVars[i], data)
  {
    if tagVars == null {
      return null;
    }
    vars := new Option<VarInfo>[tagVars.Length](_ => None);
    for i := 0 to tagVars.Length
      invariant forall j :: 0 <= j < i ==> vars[j] == VariableSlot(tagVars[j], data)
      invariant forall j :: i <= j < vars.Length ==> vars[j] == None
    {
      var tagVar := tagVars[i];
      var name: string;
      if tagVar.nameGiven.Some? {
        name := tagVar.nameGiven.value;
      } else {
        if tagVar.nameFromAttribute !in data {
          continue;
        }
        name := data[tagVar.nameFromAttribute];
      }
      vars[i] := Some(VarInfo(name, tagVar.className, tagVar.declare, tagVar.scope));
    }
  }

  /** The character classes of section 3.8 of the Java Language Specification. */
  datatype CharClasses = CharClasses(isIdentifierStart: char -> bool, isIdentifierPart: char -> bool)

  /** A Java identifier: a start character followed by part characters. */
  predicate IsJavaIdentifier(name: string, cc: CharClasses)
  {
    |name| > 0 && cc.isIdentifierStart(name[0]) && forall i :: 1 <= i < |name| ==> cc.isIdentifierPart(name[i])
  }

  /**
   * `validateVarName`: the first character must be an identifier start and
   * every character, the first included, an identifier part.
   */
  method ValidateVarName(name: string, cc: CharClasses) returns (res: Outcome<TagError>)
    ensures res.Pass? <==> (|name| > 0 && cc.isIdentifierStart(name[0]) &&
      forall i :: 0 <= i < |name| ==> cc.isIdentifierPart(name[i]))
    ensures res.Fail? ==> res.error == if name == [] then EmptyVarName else IllegalVarName(name)
  {
    if name == [] {
      return Fail(EmptyVarName);
    }
    if !cc.isIdentifierStart(name[0]) {
      return Fail(IllegalVarName(name));
    }
    var i := 0;
    while i < |name|
      invariant 0 <= i <= |name|
      invariant forall j :: 0 <= j < i ==> cc.isIdentifierPart(name[j])
    {
      if !cc.isIdentifierPart(name[i]) {
        return Fail(IllegalVarName(name));
      }
      i := i + 1;
    }
    return Pass;
  }

  /**
   * With character classes in which every identifier start is also an
   * identifier part, as in the Java Language Specification, the names
   * `validateVarName` accepts are exactly the Java identifiers.
   */
  lemma ValidatedAreIdentifiers(name: string, cc: CharClasses)
    requires forall c :: cc.isIdentifierStart(c) ==> cc.isIdentifierPart(c)
    ensures (|name| > 0 && cc.isIdentifierStart(name[0]) && forall i :: 0 <= i < |name| ==> cc.isIdentifierPart(name[i]))
      <==> IsJavaIdentifier(name, cc)
  {
  }

  // Declarations of tag variables at the start of the tag.

  /** The type a variable is declared with; the default is `java.lang.String`. */
  function DeclaredType(className: Option<string>): string
  {
    if className.Some? then className.value else "java.lang.String"
  }

  /**
   * The initializer of a declared variable: `0;` for the numeric
   * primitive types, `false;` for `boolean`, `null;` for anything else.
   */
  function DefaultInitializer(className: Option<string>): string
  {
    match className
    case Some("byte") => "0;"
    case Some("short") => "0;"
    case Some("char") => "0;"
    case Some("int") => "0;"
    case Some("long") => "0;"
    case Some("float") => "0;"
    case Some("double") => "0;"
    case Some("boolean") => "false;"
    case _ => "null;"
  }

  /** The primitive types of section 4.2 of the Java Language Specification. */
  predicate IsPrimitiveType(t: string)
  {
    t in {"byte", "short", "char", "int", "long", "float", "double", "boolean"}
  }

  /**
   * A variable is initialized to `null` exactly when it is declared with a
   * reference type, the default `java.lang.String` included, and to
   * `false` exactly when it is a `boolean`.
   */
  lemma InitializerFitsType(className: Option<string>)
    ensures DefaultInitializer(className) == "null;" <==> !IsPrimitiveType(DeclaredType(className))
    ensures DefaultInitializer(className) == "false;" <==> DeclaredType(className) == "boolean"
    ensures DefaultInitializer(className) == "0;" <==>
      IsPrimitiveType(DeclaredType(className)) && DeclaredType(className) != "boolean"
  {
  }

  /** One variable declaration at the start of the tag: type, name and initializer. */
  datatype Declaration = Declaration(typeName: string, varName: string, initializer: string)

  /**
   * The declaration one slot of the variables makes, given the names
   * already declared: only with scripting, for a variable that is to be
   * declared, visible at the end or from the beginning, and not declared yet.
   */
  function DeclarationOf(v: Option<VarInfo>, hasScripting: bool, declared: set<string>): Option<Declaration>
  {
    match v
    case None => None
    case Some(var') =>
      if hasScripting && (var'.scope == AtEnd || var'.scope == AtBegin) && var'.declare && var'.varName !in declared then
        Some(Declaration(DeclaredType(var'.className), var'.varName, DefaultInitializer(var'.className)))
      else None
  }

  /** The declarations of the variables in order, and the declared names afterwards. */
  function Prologue(vars: seq<Option<VarInfo>>, hasScripting: bool, declared: set<string>): (seq<Declaration>, set<string>)
    decreases |vars|
  {
    if vars == [] then ([], declared)
    else
      var before := Prologue(vars[..|vars| - 1], hasScripting, declared);
      match DeclarationOf(vars[|vars| - 1], hasScripting, before.1)
      case None => before
      case Some(d) => (before.0 + [d], before.1 + {d.varName})
  }

  /** The names a sequence of declarations declares. */
  function NamesOf(ds: seq<Declaration>): set<string>
    decreases |ds|
  {
    if ds == [] then {} else NamesOf(ds[..|ds| - 1]) + {ds[|ds| - 1].varName}
  }

  lemma {:induction false} NamesOfMember(ds: seq<Declaration>, n: string)
    ensures n in NamesOf(ds) <==> exists i :: 0 <= i < |ds| && ds[i].varName == n
    decreases |ds|
  {
    if ds != [] {
      var front := ds[..|ds| - 1];
      NamesOfMember(front, n);
      if n in NamesOf(front) {
        var i :| 0 <= i < |front| && front[i].varName == n;
        assert ds[i] == front[i];
      }
      if exists i :: 0 <= i < |ds| && ds[i].varName == n {
        var i :| 0 <= i < |ds| && ds[i].varName == n;
        if i < |front| {
          assert front[i] == ds[i];
        }
      }
    }
  }

  /**
   * The prologue declares every name at most once and never a name that
   * was declared before; afterwards the declared names are the earlier
   * ones and those of the declarations made.
   */
  lemma {:induction false} PrologueDeclaresOnce(vars: seq<Option<VarInfo>>, hasScripting: bool, declared: set<string>)
    ensures var r := Prologue(vars, hasScripting, declared);
      && r.1 == declared + NamesOf(r.0)
      && (forall i :: 0 <= i < |r.0| ==> r.0[i].varName !in declared)
      && (forall i, j :: 0 <= i < j < |r.0| ==> r.0[i].varName != r.0[j].varName)
    decreases |vars|
  {
    if vars != [] {
      var front := vars[..|vars| - 1];
      var before := Prologue(front, hasScripting, declared);
      PrologueDeclaresOnce(front, hasScripting, declared);
      match DeclarationOf(vars[|vars| - 1], hasScripting, before.1)
      case None =>
      case Some(d) =>
        var ds := before.0 + [d];
        assert ds[..|ds| - 1] == before.0;
        forall i | 0 <= i < |before.0| ensures before.0[i].varName != d.varName {
          NamesOfMember(before.0, before.0[i].varName);
        }
    }
  }

  /** The declaration made for a slot that holds a variable. */
  predicate DeclaredFrom(d: Declaration, v: Option<VarInfo>)
  {
    v.Some? && d == Declaration(DeclaredType(v.value.className), v.value.varName, DefaultInitializer(v.value.className))
  }

  /** Every declaration the prologue makes carries the declared type and the default initializer of one of the variables. */
  lemma {:induction false} PrologueDeclarationsTyped(vars: seq<Option<VarInfo>>, hasScripting: bool, declared: set<string>, i: nat)
    requires i < |Prologue(vars, hasScripting, declared).0|
    ensures exists k :: 0 <= k < |vars| && DeclaredFrom(Prologue(vars, hasScripting, declared).0[i], vars[k])
    decreases |vars|
  {
    var front := vars[..|vars| - 1];
    var fs := Prologue(front, hasScripting, declared).0;
    if i < |fs| {
      PrologueDeclarationsTyped(front, hasScripting, declared, i);
      var k :| 0 <= k < |front| && DeclaredFrom(fs[i], front[k]);
      assert vars[k] == front[k];
    } else {
      assert DeclaredFrom(Prologue(vars, hasScripting, declared).0[i], vars[|vars| - 1]);
    }
  }

  /** The page generator: whether the page has scripting, the names it has declared and the declarations printed. */
  class Generator {
    const hasScripting: bool
    var declared: set<string>
    var declarations: seq<Declaration>

    constructor (hasScripting: bool)
      ensures this.hasScripting == hasScripting && declared == {} && declarations == []
    {
      this.hasScripting := hasScripting;
      declared := {};
      declarations := [];
    }
  }

  /** The loop over the tag variables in `generatePrologue` that declares the variables visible after the tag. */
  method DeclareVariables(gen: Generator, varInfo: array?<Option<VarInfo>>)
    modifies gen
    ensures varInfo == null ==> gen.declared == old(gen.declared) && gen.declarations == old(gen.declarations)
    ensures varInfo != null ==>
      var r := Prologue(varInfo[..], gen.hasScripting, old(gen.declared));
      gen.declarations == old(gen.declarations) + r.0 && gen.declared == r.1
  {
    if varInfo == null {
      return;
    }
    ghost var d0 := gen.declarations;
    ghost var n0 := gen.declared;
    for i := 0 to varInfo.Length
      invariant var r := Prologue(varInfo[..i], gen.hasScripting, n0);
        gen.declarations == d0 + r.0 && gen.declared == r.1
    {
      assert varInfo[..i + 1][..i] == varInfo[..i];
      var v := varInfo[i];
      if v.None? {
      } else if !gen.hasScripting {
      } else if (v.value.scope == AtEnd || v.value.scope == AtBegin) && v.value.declare && v.value.varName !in gen.declared {
        var className := DeclaredType(v.value.className);
        gen.declared := gen.declared + {v.value.varName};
        gen.declarations := gen.declarations + [Declaration(className, v.value.varName, DefaultInitializer(v.value.className))];
      }
    }
    assert varInfo[..varInfo.Length] == varInfo[..];
  }

  // The XML view of the tag.

  /** `startsWith("<%=") && endsWith("%>")`: an attribute value that is a runtime expression. */
  predicate IsRuntimeExpression(s: string)
  {
    |s| >= 3 && s[..3] == "<%=" && |s| >= 2 && s[|s| - 2..] == "%>"
  }

  /**
   * The text printed for a string attribute value: a runtime expression
   * `<%=e%>` as `%=e%`, with `e` escaped; any other value escaped.
   */
  function AttributeText(s: string, escape: string -> string): string
  {
    if IsRuntimeExpression(s) then
      assert |s| >= 5 by {
        assert s[2] == '=' && s[|s| - 2] == '%' && s[|s| - 1] == '>';
      }
      "%=" + escape(s[3..|s| - 2]) + "%"
    else escape(s)
  }

  /** The expression `<%=e%>` is printed as `%=` and the escaped `e`, then `%`. */
  lemma ExpressionAttributeText(e: string, escape: string -> string)
    ensures AttributeText("<%=" + e + "%>", escape) == "%=" + escape(e) + "%"
  {
    var s := "<%=" + e + "%>";
    assert s[..3] == "<%=";
    assert s[|s| - 2..] == "%>";
    assert s[3..|s| - 2] == e;
  }

  /** An attribute value: a string, or a value that the XML view does not print (a fragment, an attribute node). */
  datatype AttrValue = StringValue(s: string) | OtherValue

  /** The attributes of `printXml`: each string valued attribute as ` name="text"`, in order. */
  function XmlAttributes(attrs: seq<(AttrName, AttrValue)>, escape: string -> string): string
    decreases |attrs|
  {
    if attrs == [] then []
    else
      var (n, v) := attrs[0];
      (if v.StringValue? then " " + n.name + "=\"" + AttributeText(v.s, escape) + "\"" else [])
        + XmlAttributes(attrs[1..], escape)
  }

  /** Attributes without a string value print nothing. */
  lemma {:induction false} XmlAttributesSkipOthers(attrs: seq<(AttrName, AttrValue)>, escape: string -> string)
    requires forall i :: 0 <= i < |attrs| ==> attrs[i].1.OtherValue?
    ensures XmlAttributes(attrs, escape) == []
    decreases |attrs|
  {
    if attrs != [] {
      XmlAttributesSkipOthers(attrs[1..], escape);
    }
  }

  /** The XML view of attributes printed in two parts is the concatenation of the parts. */
  lemma {:induction false} XmlAttributesConcat(a: seq<(AttrName, AttrValue)>, b: seq<(AttrName, AttrValue)>, escape: string -> string)
    ensures XmlAttributes(a + b, escape) == XmlAttributes(a, escape) + XmlAttributes(b, escape)
    decreases |a|
  {
    if a == [] {
      assert a + b == b;
    } else {
      assert (a + b)[0] == a[0];
      assert (a + b)[1..] == a[1..] + b;
      XmlAttributesConcat(a[1..], b, escape);
    }
  }

  // Scripting elements.

  /** A scriptlet or an expression. */
  predicate IsScripting(n: JspNode)
  {
    n.JspScriptlet? || n.JspExpression?
  }

  /** The children of a node; static text and the scripting elements have none. */
  function ChildrenOf(n: JspNode): seq<JspNode>
  {
    if n.JspAttribute? || n.Element? then n.children else []
  }

  /** `hasScriptlet`, recursively: the node is a scripting element, or one of its children has one. */
  function HasScriptlet(n: JspNode): bool
    decreases n, 1
  {
    IsScripting(n) || AnyHasScriptlet(ChildrenOf(n), n)
  }

  function AnyHasScriptlet(cs: seq<JspNode>, ghost parent: JspNode): bool
    requires forall i :: 0 <= i < |cs| ==> cs[i] < parent
    decreases parent, 0, |cs|
  {
    if cs == [] then false else HasScriptlet(cs[0]) || AnyHasScriptlet(cs[1..], parent)
  }

  /** The node and all its descendants, in document order. */
  function Nodes(n: JspNode): seq<JspNode>
    decreases n, 1
  {
    [n] + NodesOf(ChildrenOf(n), n)
  }

  function NodesOf(cs: seq<JspNode>, ghost parent: JspNode): seq<JspNode>
    requires forall i :: 0 <= i < |cs| ==> cs[i] < parent
    decreases parent, 0, |cs|
  {
    if cs == [] then [] else Nodes(cs[0]) + NodesOf(cs[1..], parent)
  }

  /** True when some node of the sequence is a scripting element. */
  predicate SomeScripting(ns: seq<JspNode>)
  {
    exists i :: 0 <= i < |ns| && IsScripting(ns[i])
  }

  lemma SomeScriptingConcat(a: seq<JspNode>, b: seq<JspNode>)
    ensures SomeScripting(a + b) <==> SomeScripting(a) || SomeScripting(b)
  {
    if SomeScripting(a + b) {
      var i :| 0 <= i < |a + b| && IsScripting((a + b)[i]);
      if i >= |a| {
        assert b[i - |a|] == (a + b)[i];
      }
    }
    if SomeScripting(a) {
      var i :| 0 <= i < |a| && IsScripting(a[i]);
      assert (a + b)[i] == a[i];
    }
    if SomeScripting(b) {
      var i :| 0 <= i < |b| && IsScripting(b[i]);
      assert (a + b)[|a| + i] == b[i];
    }
  }

  /** `hasScriptlet` holds exactly when the node or one of its descendants is a scriptlet or an expression. */
  lemma {:induction false} HasScriptletMeaning(n: JspNode)
    ensures HasScriptlet(n) <==> SomeScripting(Nodes(n))
    decreases n, 1
  {
    SomeScriptingConcat([n], NodesOf(ChildrenOf(n), n));
    assert SomeScripting([n]) <==> IsScripting(n) by {
      assert [n][0] == n;
    }
    AnyHasScriptletMeaning(ChildrenOf(n), n);
  }

  lemma {:induction false} AnyHasScriptletMeaning(cs: seq<JspNode>, parent: JspNode)
    requires forall i :: 0 <= i < |cs| ==> cs[i] < parent
    ensures AnyHasScriptlet(cs, parent) <==> SomeScripting(NodesOf(cs, parent))
    decreases parent, 0, |cs|
  {
    if cs != [] {
      HasScriptletMeaning(cs[0]);
      AnyHasScriptletMeaning(cs[1..], parent);
      SomeScriptingConcat(Nodes(cs[0]), NodesOf(cs[1..], parent));
    }
  }

  /** `hasScriptlet` as the source computes it: a loop over the children that stops at the first one with a scripting element. */
  method ComputeHasScriptlet(n: JspNode) returns (b: bool)
    ensures b == HasScriptlet(n)
    decreases n
  {
    if IsScripting(n) {
      return true;
    }
    var children := ChildrenOf(n);
    var i := 0;
    while i < |children|
      invariant 0 <= i <= |children|
      invariant AnyHasScriptlet(children, n) == AnyHasScriptlet(children[i..], n)
    {
      assert children[i..][1..] == children[i + 1..];
      var found := ComputeHasScriptlet(children[i]);
      if found {
        return true;
      }
      i := i + 1;
    }
    return false;
  }
}
