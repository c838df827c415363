/** The adapters between the two versions of the content schema, and how much each keeps. */
module ContentAdapters {
  import opened Wrappers
  import V1 = ContentV1
  import V2 = ContentV2

  /** A conversion may fail with a message. */
  type Converted<+T> = Result<T, string>

  /** Converts a list item by item; the first failure is the failure of the whole. */
  function Collect<A, B>(xs: seq<A>, f: A -> Converted<B>): Converted<seq<B>> {
    if xs == [] then Ok([])
    else
      var first := f(xs[0]);
      if first.Err? then Err(first.error)
      else
        var rest := Collect(xs[1..], f);
        if rest.Err? then rest else Ok([first.value] + rest.value)
  }

  lemma CollectExactly<A, B>(xs: seq<A>, f: A -> Converted<B>)
    ensures Collect(xs, f).Ok? <==> forall i | 0 <= i < |xs| :: f(xs[i]).Ok?
    ensures Collect(xs, f).Ok? ==>
              && |Collect(xs, f).value| == |xs|
              && forall i | 0 <= i < |xs| :: f(xs[i]) == Ok(Collect(xs, f).value[i])
  {
  }

  // ---------------------------------------------------------------------------
  // The adapters
  // ---------------------------------------------------------------------------

  function RoleFromV1(r: V1.Role): Converted<V2.Role> {
    match r
    case Assistant => Ok(V2.Assistant)
    case User => Ok(V2.User)
    case FutureRole => Err("unsupported v1 annotation role")
  }

  function RoleToV1(r: V2.Role): Converted<V1.Role> {
    match r
    case Assistant => Ok(V1.Assistant)
    case User => Ok(V1.User)
    case Other(_) => Err("v2 annotation role cannot be represented in v1")
    case FutureRole => Err("unsupported v2 annotation role")
  }

  /** The absent value converts to itself. */
  function Transpose<A, B>(x: Option<A>, f: A -> Converted<B>): Converted<Option<B>> {
    if x.None? then Ok(None)
    else
      var y := f(x.value);
      if y.Err? then Err(y.error) else Ok(Some(y.value))
  }

  function AnnotationsFromV1(a: V1.Annotations): Converted<V2.Annotations> {
    var audience := Transpose(a.audience, (roles: seq<V1.Role>) => Collect(roles, RoleFromV1));
    if audience.Err? then Err(audience.error)
    else Ok(V2.Annotations(audience.value, a.lastModified, a.priority, a.meta))
  }

  function AnnotationsToV1(a: V2.Annotations): Converted<V1.Annotations> {
    var audience := Transpose(a.audience, (roles: seq<V2.Role>) => Collect(roles, RoleToV1));
    if audience.Err? then Err(audience.error)
    else Ok(V1.Annotations(audience.value, a.lastModified, a.priority, a.meta))
  }

  function Upgraded(mimeType: Option<string>): Option<V2.MediaType> {
    if mimeType.None? then None else Some(V2.MediaType(mimeType.value))
  }

  function Downgraded(mimeType: Option<V2.MediaType>): Option<string> {
    if mimeType.None? then None else Some(mimeType.value.name)
  }

  /** A negative size is unknown. */
  function SizeFromV1(size: Option<V1.I64>): Option<V2.U64> {
    if size.None? || size.value < 0 then None else Some(size.value)
  }

  /** A size beyond the signed range is unknown. */
  function SizeToV1(size: Option<V2.U64>): Option<V1.I64> {
    if size.None? || size.value >= 0x8000_0000_0000_0000 then None else Some(size.value)
  }

  function EmbeddedFromV1(r: V1.Embedded): Converted<V2.Embedded> {
    match r
    case TextResource(text, uri, mimeType, meta) => Ok(V2.TextResource(text, uri, Upgraded(mimeType), meta))
    case BlobResource(blob, uri, mimeType, meta) => Ok(V2.BlobResource(blob, uri, Upgraded(mimeType), meta))
    case FutureResource => Err("unsupported v1 embedded resource variant")
  }

  function EmbeddedToV1(r: V2.Embedded): Converted<V1.Embedded> {
    match r
    case TextResource(text, uri, mimeType, meta) => Ok(V1.TextResource(text, uri, Downgraded(mimeType), meta))
    case BlobResource(blob, uri, mimeType, meta) => Ok(V1.BlobResource(blob, uri, Downgraded(mimeType), meta))
    case FutureResource => Err("unsupported v2 embedded resource variant")
  }

  function FromV1(block: V1.Block): Converted<V2.Block> {
    if block.FutureBlock? then Err("unsupported v1 content block variant")
    else
      var resource := if block.Resource? then EmbeddedFromV1(block.resource) else Ok(V2.FutureResource);
      if resource.Err? then Err(resource.error)
      else
        var annotations := Transpose(block.annotations, AnnotationsFromV1);
        if annotations.Err? then Err(annotations.error)
        else
          var notes := annotations.value;
          match block
          case Text(text, _, meta) => Ok(V2.Text(text, notes, meta))
          case Image(data, mimeType, uri, _, meta) => Ok(V2.Image(data, V2.MediaType(mimeType), uri, notes, meta))
          case Audio(data, mimeType, _, meta) => Ok(V2.Audio(data, V2.MediaType(mimeType), notes, meta))
          case ResourceLink(name, uri, title, description, mimeType, size, _, meta) =>
            Ok(V2.ResourceLink(name, uri, title, description, Upgraded(mimeType), SizeFromV1(size), None, notes, meta))
          case Resource(_, _, meta) => Ok(V2.Resource(resource.value, notes, meta))
  }

  predicate HasIcons(block: V2.Block) {
    block.ResourceLink? && block.icons.Some? && block.icons.value != []
  }

  function ToV1(block: V2.Block): Converted<V1.Block> {
    if block.Other? then Err("v2 custom content block cannot be represented in v1")
    else if block.FutureBlock? then Err("unsupported v2 content block variant")
    else if HasIcons(block) then Err("v2 resource link icons cannot be represented in v1")
    else
      var resource := if block.Resource? then EmbeddedToV1(block.resource) else Ok(V1.FutureResource);
      if resource.Err? then Err(resource.error)
      else
        var annotations := Transpose(block.annotations, AnnotationsToV1);
        if annotations.Err? then Err(annotations.error)
        else
          var notes := annotations.value;
          match block
          case Text(text, _, meta) => Ok(V1.Text(text, notes, meta))
          case Image(data, mimeType, uri, _, meta) => Ok(V1.Image(data, mimeType.name, uri, notes, meta))
          case Audio(data, mimeType, _, meta) => Ok(V1.Audio(data, mimeType.name, notes, meta))
          case ResourceLink(name, uri, title, description, mimeType, size, _, _, meta) =>
            Ok(V1.ResourceLink(name, uri, title, description, Downgraded(mimeType), SizeToV1(size), notes, meta))
          case Resource(_, _, meta) => Ok(V1.Resource(resource.value, notes, meta))
  }

  /** `can_convert_to_v1`, which looks at the block without converting it. */
  predicate CanConvertToV1(block: V2.Block) {
    && !block.Other? && !block.FutureBlock?
    && (block.ResourceLink? ==> block.icons.None? || block.icons.value == [])
    && (block.Resource? ==> block.resource.TextResource? || block.resource.BlobResource?)
    && (block.annotations.Some? && block.annotations.value.audience.Some? ==>
          forall r | r in block.annotations.value.audience.value :: r.Assistant? || r.User?)
  }

  function ValidatePrompt(content: seq<V2.Block>): Converted<()> {
    if forall b | b in content :: CanConvertToV1(b) then Ok(())
    else Err("This prompt contains content not supported by ACP v1")
  }

  function PromptToV1(request: V2.PromptRequest): Converted<V1.PromptRequest> {
    var prompt := Collect(request.prompt, ToV1);
    if prompt.Err? then Err(prompt.error)
    else Ok(V1.PromptRequest(request.sessionId, prompt.value, request.meta))
  }

  // ---------------------------------------------------------------------------
  // When a conversion succeeds
  // ---------------------------------------------------------------------------

  lemma AudienceConvertsExactlyWhen(roles: seq<V2.Role>)
    ensures Collect(roles, RoleToV1).Ok? <==> forall r | r in roles :: r.Assistant? || r.User?
  {
  }

  /** The predicate decides exactly whether the conversion succeeds. */
  lemma ConvertibleExactlyWhen(block: V2.Block)
    ensures CanConvertToV1(block) <==> ToV1(block).Ok?
  {
    if !block.Other? && !block.FutureBlock? && block.annotations.Some? && block.annotations.value.audience.Some? {
      AudienceConvertsExactlyWhen(block.annotations.value.audience.value);
    }
  }

  /** A first-version block converts exactly when every variant in it is known. */
  lemma UpgradableExactlyWhen(block: V1.Block)
    ensures FromV1(block).Ok? <==>
            && !block.FutureBlock?
            && (block.Resource? ==> !block.resource.FutureResource?)
            && (block.annotations.Some? && block.annotations.value.audience.Some? ==>
                  V1.FutureRole !in block.annotations.value.audience.value)
  {
    if !block.FutureBlock? && block.annotations.Some? && block.annotations.value.audience.Some? {
      var roles := block.annotations.value.audience.value;
      CollectExactly(roles, RoleFromV1);
      if V1.FutureRole in roles {
        var i :| 0 <= i < |roles| && roles[i] == V1.FutureRole;
        assert RoleFromV1(roles[i]).Err?;
      }
    }
  }

  /** A prompt passes validation exactly when all of it converts, block by block and with its envelope. */
  lemma PromptConvertibleExactlyWhen(request: V2.PromptRequest)
    ensures ValidatePrompt(request.prompt).Ok? <==> PromptToV1(request).Ok?
    ensures PromptToV1(request).Ok? ==>
              var out := PromptToV1(request).value;
              && out.sessionId == request.sessionId && out.meta == request.meta
              && |out.prompt| == |request.prompt|
              && forall i | 0 <= i < |out.prompt| :: ToV1(request.prompt[i]) == Ok(out.prompt[i])
  {
    CollectExactly(request.prompt, ToV1);
    forall i | 0 <= i < |request.prompt|
      ensures CanConvertToV1(request.prompt[i]) <==> ToV1(request.prompt[i]).Ok?
    {
      ConvertibleExactlyWhen(request.prompt[i]);
    }
  }

  // ---------------------------------------------------------------------------
  // Round trips
  // ---------------------------------------------------------------------------

  lemma {:induction false} RolesUpAndDown(roles: seq<V1.Role>)
    requires Collect(roles, RoleFromV1).Ok?
    ensures Collect(Collect(roles, RoleFromV1).value, RoleToV1) == Ok(roles)
  {
    if roles != [] {
      RolesUpAndDown(roles[1..]);
      var converted := Collect(roles, RoleFromV1).value;
      assert converted[1..] == Collect(roles[1..], RoleFromV1).value;
      assert converted != [] && roles == [roles[0]] + roles[1..];
    }
  }

  lemma {:induction false} RolesDownAndUp(roles: seq<V2.Role>)
    requires Collect(roles, RoleToV1).Ok?
    ensures Collect(Collect(roles, RoleToV1).value, RoleFromV1) == Ok(roles)
  {
    if roles != [] {
      RolesDownAndUp(roles[1..]);
      var converted := Collect(roles, RoleToV1).value;
      assert converted[1..] == Collect(roles[1..], RoleToV1).value;
      assert converted != [] && roles == [roles[0]] + roles[1..];
    }
  }

  lemma NotesUpAndDown(notes: Option<V1.Annotations>)
    requires Transpose(notes, AnnotationsFromV1).Ok?
    ensures Transpose(Transpose(notes, AnnotationsFromV1).value, AnnotationsToV1) == Ok(notes)
  {
    if notes.Some? && notes.value.audience.Some? {
      RolesUpAndDown(notes.value.audience.value);
    }
  }

  lemma NotesDownAndUp(notes: Option<V2.Annotations>)
    requires Transpose(notes, AnnotationsToV1).Ok?
    ensures Transpose(Transpose(notes, AnnotationsToV1).value, AnnotationsFromV1) == Ok(notes)
  {
    if notes.Some? && notes.value.audience.Some? {
      RolesDownAndUp(notes.value.audience.value);
    }
  }

  /** A first-version block comes back unchanged, save that a negative size is forgotten. */
  lemma UpgradeThenDowngrade(block: V1.Block)
    requires FromV1(block).Ok?
    ensures ToV1(FromV1(block).value) ==
            Ok(if block.ResourceLink? && block.size.Some? && block.size.value < 0 then block.(size := None) else block)
  {
    NotesUpAndDown(block.annotations);
    match block
    case ResourceLink(_, _, _, _, _, _, _, _) => LinkUpAndDown(block);
    case Resource(_, _, _) =>
    case _ =>
  }

  lemma LinkUpAndDown(block: V1.Block)
    requires block.ResourceLink? && FromV1(block).Ok?
    requires Transpose(FromV1(block).value.annotations, AnnotationsToV1) == Ok(block.annotations)
    ensures ToV1(FromV1(block).value) ==
            Ok(if block.size.Some? && block.size.value < 0 then block.(size := None) else block)
  {
  }

  /** What of a second-version block the first version can say. */
  function Expressible(block: V2.Block): V2.Block {
    if block.ResourceLink? then
      block.(icons := None,
             size := if block.size.Some? && block.size.value >= 0x8000_0000_0000_0000 then None else block.size)
    else block
  }

  /** The other round trip loses only empty icon lists and sizes beyond the signed range. */
  lemma DowngradeThenUpgrade(block: V2.Block)
    requires ToV1(block).Ok?
    ensures FromV1(ToV1(block).value) == Ok(Expressible(block))
  {
    NotesDownAndUp(block.annotations);
  }

  /** Going through the first version is a projection: a second trip changes nothing more. */
  lemma DowngradeIsProjection(block: V2.Block)
    requires ToV1(block).Ok?
    ensures var once := FromV1(ToV1(block).value);
            once.Ok? && ToV1(once.value) == ToV1(block) && FromV1(ToV1(once.value).value) == once
  {
    DowngradeThenUpgrade(block);
  }
}
