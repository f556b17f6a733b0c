/** `CreateBufferWithData`: building a GPU buffer from a vector of CPU
    elements with one synchronous upload. */
module Buffers {
  import opened Types
  import opened Gpu

  datatype Buffer = Buffer(handle: Handle, desc: BufferDesc)

  datatype Upload = Upload(device: Device, buffer: Buffer)

  const VertexBufferName: string := "My vertex buffer"
  const IndexBufferName: string := "My index buffer"

  /** The state a buffer keeps for good once its upload is recorded. */
  function PermanentRole(isVertexBuffer: bool): ResourceState
  {
    if isVertexBuffer then VertexBuffer else IndexBuffer
  }

  /** Uploads `data`, whose elements are `elementSize` bytes each (the
      source's `sizeof(T)`), as a vertex buffer or else an index buffer. A
      missing debug name is replaced by a name that says which. The upload
      records create, open, track as copy destination, write, make
      permanent, close and execute, in that order; the new buffer ends up
      permanently in its role's readable state and nothing else changes
      state. */
  function CreateBufferWithData<T>(d: Device, data: seq<T>, elementSize: nat, isVertexBuffer: bool, debugName: Option<string>): (u: Upload)
    ensures u.buffer.desc.byteSize == |data| * elementSize
    ensures u.buffer.desc.isVertexBuffer == isVertexBuffer
    ensures u.buffer.desc.isIndexBuffer == !isVertexBuffer
    ensures u.buffer.desc.initialState == CopyDest
    ensures debugName.Some? ==> u.buffer.desc.debugName == debugName.value
    ensures debugName.None? ==> u.buffer.desc.debugName == (if isVertexBuffer then VertexBufferName else IndexBufferName)
    ensures u.buffer.handle == d.next && u.device.next == d.next + 1
    ensures u.device.trace == d.trace + [CreateBuffer(d.next, u.buffer.desc), Open, BeginTracking(d.next, CopyDest),
                                         WriteBuffer(d.next, |data| * elementSize),
                                         SetPermanent(d.next, PermanentRole(isVertexBuffer)), Close, Execute]
    ensures Disciplined(d) ==>
              && Disciplined(u.device)
              && StateOf(u.device, u.buffer.handle) == Some(Permanent(PermanentRole(isVertexBuffer)))
              && (forall h :: h != u.buffer.handle ==> StateOf(u.device, h) == StateOf(d, h))
  {
    var name := match debugName
      case Some(n) => n
      case None => if isVertexBuffer then VertexBufferName else IndexBufferName;
    var desc := BufferDesc(|data| * elementSize, name, isVertexBuffer, !isVertexBuffer, CopyDest);
    var h := d.next;
    var final := PermanentRole(isVertexBuffer);
    var d' := Device(d.trace + [CreateBuffer(h, desc), Open, BeginTracking(h, CopyDest), WriteBuffer(h, desc.byteSize),
                                SetPermanent(h, final), Close, Execute], h + 1);
    if Disciplined(d) then
      BufferUploadDisciplined(d, desc, desc.byteSize, final);
      Upload(d', Buffer(h, desc))
    else
      Upload(d', Buffer(h, desc))
  }
}
