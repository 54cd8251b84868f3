/** The callbacks through which curl pulls an upload and pushes a download, in chunks of its own choosing. */
module Transfer {
  import opened Bytes
  import opened Storages

  class ReadData {
    const content: Content
    var offset: int   // up to where it is sent
    const count: int  // where the slice ends

    constructor (content: Content, offset: int, count: int)
      ensures this.content == content && this.offset == offset && this.count == count
    {
      this.content, this.offset, this.count := content, offset, count;
    }

    ghost predicate Valid()
      reads this
    {
      0 <= offset <= count <= |content| < 0x8000_0000_0000_0000
    }

    /** What is still to be sent. */
    ghost function Remaining(): Content
      reads this
      requires Valid()
    {
      content[offset..count]
    }

    /** curl's read callback; `count - offset` is cast to an unsigned size. */
    method Callback(requested: nat) returns (sent: Content)
      requires Valid() && requested < 0x8000_0000_0000_0000
      modifies this
      ensures Valid()
      ensures |sent| == Min(requested, |old(Remaining())|)
      ensures sent + Remaining() == old(Remaining())
    {
      var available := U64(count - offset);
      var transferred := Min(requested, available);
      sent := ReadAt(content, transferred, offset);
      offset := offset + transferred;
    }

    /** Any sequence of buffer sizes delivers the slice in order, each byte once, and nothing after it. */
    method Deliver(sizes: seq<nat>) returns (body: Content)
      requires Valid() && forall i :: 0 <= i < |sizes| ==> sizes[i] < 0x8000_0000_0000_0000
      modifies this
      ensures Valid() && body + Remaining() == old(Remaining())
      ensures |body| == Min(Sum(sizes), |old(Remaining())|)
    {
      body := [];
      for i := 0 to |sizes|
        invariant Valid() && body + Remaining() == old(Remaining())
        invariant |body| == Min(Sum(sizes[..i]), |old(Remaining())|)
      {
        hide Sum;
        var sent := Callback(sizes[i]);
        SumSnoc(sizes, i);
        body := body + sent;
      }
      assert sizes[..|sizes|] == sizes;
    }

    /** A whole transfer: curl asks with non-empty buffers until it is given nothing. */
    method Perform() returns (body: Content)
      requires Valid()
      modifies this
      ensures Valid() && body == old(Remaining())
    {
      body := [];
      while true
        invariant Valid() && body + Remaining() == old(Remaining())
        decreases count - offset
      {
        var requested: nat :| 0 < requested < 0x8000_0000_0000_0000;
        var sent := Callback(requested);
        if sent == [] {
          return;
        }
        body := body + sent;
      }
    }
  }

  /** curl's write callback: the body arrives in arbitrary non-empty pieces, each appended to the storage. */
  method Receive(body: Content, target: Content) returns (r: Content)
    ensures r == target + body
  {
    r := target;
    var arrived := 0;
    while arrived < |body|
      invariant 0 <= arrived <= |body|
      invariant r == target + body[..arrived]
    {
      var realsize: nat :| 0 < realsize <= |body| - arrived;
      r := r + body[arrived..arrived + realsize];
      arrived := arrived + realsize;
    }
  }
}
