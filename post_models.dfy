/**
 * The persisted post record (PostModel.java) and the transfer record the JSON
 * decoder produces, with the field-for-field mapping between them
 * (PostImportService.java, the stream `map` of parseAndSaveBatch).
 */
module PostModels {
  import opened Wrappers

  /** A persisted post. `id` is assigned by the external service and is the primary key. */
  datatype Post = Post(id: int, userId: int, title: string, body: string)

  /** A decoded post, before it becomes an entity. */
  datatype PostDto = PostDto(id: int, userId: int, title: string, body: string)

  /**
   * What readValue returns for a body it can decode: null for the JSON
   * literal `null`, or a list whose elements are null where the array holds
   * `null`.
   */
  datatype Decoded = NullList | Items(items: seq<Option<PostDto>>)

  /**
   * The records of a decoded list when none of them is null. The stream map
   * calls dto.getId() on every element, so a single null element makes the
   * whole mapping fail.
   */
  function NonNullElements(items: seq<Option<PostDto>>): (r: Option<seq<PostDto>>)
    ensures r.Some? <==> forall i :: 0 <= i < |items| ==> items[i].Some?
    ensures r.Some? ==> |r.value| == |items| && forall i :: 0 <= i < |items| ==> items[i] == Some(r.value[i])
  {
    if items == [] then Some([])
    else match items[0]
      case None => None
      case Some(dto) =>
        var tail := NonNullElements(items[1..]);
        if tail.None? then None else Some([dto] + tail.value)
  }

  /** One entity built from one transfer record, field for field. */
  function ToEntity(dto: PostDto): (p: Post)
    ensures p.id == dto.id && p.userId == dto.userId
    ensures p.title == dto.title && p.body == dto.body
  {
    Post(dto.id, dto.userId, dto.title, dto.body)
  }

  /** The inverse of ToEntity: the transfer record an entity came from. */
  function ToDto(p: Post): (dto: PostDto)
    ensures ToEntity(dto) == p
  {
    PostDto(p.id, p.userId, p.title, p.body)
  }

  /**
   * `dtos.stream().map(dto -> new PostModel(...)).toList()`: same length,
   * same order, and each entity carries its record's four fields.
   */
  function ToEntities(dtos: seq<PostDto>): (ps: seq<Post>)
    ensures |ps| == |dtos|
    ensures forall i :: 0 <= i < |dtos| ==>
      ps[i].id == dtos[i].id && ps[i].userId == dtos[i].userId && ps[i].title == dtos[i].title && ps[i].body == dtos[i].body
  {
    seq(|dtos|, i requires 0 <= i < |dtos| => ToEntity(dtos[i]))
  }

  /** Mapping loses nothing: every transfer record is recovered from its entity. */
  lemma MappingRoundTrip(dtos: seq<PostDto>)
    ensures |ToEntities(dtos)| == |dtos|
    ensures forall i :: 0 <= i < |dtos| ==> ToDto(ToEntities(dtos)[i]) == dtos[i]
  {
  }

  /** Mapping distributes over concatenation, so the order of the list is kept. */
  lemma {:induction false} MappingConcat(xs: seq<PostDto>, ys: seq<PostDto>)
    ensures ToEntities(xs + ys) == ToEntities(xs) + ToEntities(ys)
  {
    var l, r := ToEntities(xs + ys), ToEntities(xs) + ToEntities(ys);
    assert |l| == |r|;
    forall i | 0 <= i < |l| ensures l[i] == r[i] {
      if i < |xs| {
        assert (xs + ys)[i] == xs[i];
      } else {
        assert (xs + ys)[i] == ys[i - |xs|];
      }
    }
  }
}
