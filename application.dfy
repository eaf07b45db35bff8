/**
 * The `triangles::application` class: two frame slots used in turn, each with a fence that is
 * waited on, reset and re-signalled by a submission; swapchain recreation when acquire or
 * present reports an out-of-date or suboptimal swapchain; the command buffer each frame
 * records; and the choice of graphics and present queue families. Driver outcomes are inputs,
 * fences are booleans, and the driver calls the class makes are logged in a ghost trace.
 */
module Application {
  import opened Wrappers
  import opened Vk
  import opened Utils
  import opened Memory
  import opened Buffers
  import opened Queues
  import opened Device

  /** `c_max_frames_in_flight`: double buffering. */
  const MAX_FRAMES_IN_FLIGHT: nat := 2

  /** `vk::BufferUsageFlagBits::eVertexBuffer`. */
  const BUFFER_USAGE_VERTEX: Flags := 0x80

  // ---------------------------------------------------------------------------------------------
  // Command buffer contents

  /** The commands `fill_command_buffer` records; viewport and scissor are given by the extent they cover. */
  datatype Command =
    | BeginRenderPass(renderPass: RenderPass, framebuffer: Framebuffer, renderArea: Extent2D)
    | SetViewport(viewport: Extent2D)
    | SetScissor(scissor: Extent2D)
    | BindPipeline
    | BindDescriptorSets
    | BindVertexBuffer
    | Draw(vertexCount: U32, instanceCount: U32, firstVertex: U32, firstInstance: U32)
    | EndRenderPass

  predicate IsDraw(c: Command)
  {
    c.Draw?
  }

  /**
   * The render pass over one framebuffer: viewport, scissor, pipeline and descriptor set, then,
   * once triangles are loaded, the vertex buffer and one draw of all vertices (`m_verices_n` is
   * a `size_t` passed as a `uint32_t` vertex count).
   */
  function RenderCommands(renderPass: RenderPass, fb: Framebuffer, extent: Extent2D, loaded: bool, verticesN: nat): seq<Command>
  {
    [BeginRenderPass(renderPass, fb, extent), SetViewport(extent), SetScissor(extent), BindPipeline, BindDescriptorSets] +
    (if loaded then [BindVertexBuffer, Draw(verticesN % U32_MODULUS, 1, 0, 0)] else []) +
    [EndRenderPass]
  }

  /** The draws among the recorded commands: one of all vertices when triangles are loaded, none otherwise. */
  lemma {:induction false} RenderCommandsDraws(renderPass: RenderPass, fb: Framebuffer, extent: Extent2D, loaded: bool, verticesN: nat)
    ensures Filter(RenderCommands(renderPass, fb, extent, loaded, verticesN), IsDraw) ==
            if loaded then [Draw(verticesN % U32_MODULUS, 1, 0, 0)] else []
  {
    var head: seq<Command> := [BeginRenderPass(renderPass, fb, extent), SetViewport(extent), SetScissor(extent), BindPipeline, BindDescriptorSets];
    var draw := Draw(verticesN % U32_MODULUS, 1, 0, 0);
    var mid: seq<Command> := if loaded then [BindVertexBuffer, draw] else [];
    var tail: seq<Command> := [EndRenderPass];
    assert RenderCommands(renderPass, fb, extent, loaded, verticesN) == (head + mid) + tail;
    FilterShape(head, IsDraw);
    FilterShape(tail, IsDraw);
    FilterConcat(head, mid, IsDraw);
    FilterConcat(head + mid, tail, IsDraw);
    if loaded {
      assert mid == [BindVertexBuffer] + [draw];
      FilterConcat([BindVertexBuffer], [draw], IsDraw);
      FilterShape([BindVertexBuffer], IsDraw);
      assert [draw][..0] == [];
    } else {
      FilterShape(mid, IsDraw);
    }
  }

  /**
   * The recorded render pass begins first and ends last; it holds exactly one draw, of all
   * vertices, when triangles are loaded and none otherwise, and binds the vertex buffer only then.
   */
  lemma RenderCommandsShape(renderPass: RenderPass, fb: Framebuffer, extent: Extent2D, loaded: bool, verticesN: nat)
    ensures var r := RenderCommands(renderPass, fb, extent, loaded, verticesN);
            |r| >= 6 && r[0] == BeginRenderPass(renderPass, fb, extent) && r[|r| - 1] == EndRenderPass &&
            Filter(r, IsDraw) == (if loaded then [Draw(verticesN % U32_MODULUS, 1, 0, 0)] else []) &&
            (BindVertexBuffer in r <==> loaded)
  {
    RenderCommandsDraws(renderPass, fb, extent, loaded, verticesN);
    var r := RenderCommands(renderPass, fb, extent, loaded, verticesN);
    if loaded {
      assert r[5] == BindVertexBuffer;
    } else {
      assert |r| == 6;
      assert forall k :: 0 <= k < 6 ==> r[k] != BindVertexBuffer;
    }
  }

  // ---------------------------------------------------------------------------------------------
  // Frame slots, driver outcomes and the trace

  /**
   * One `frame_rendering_info`: its in-flight fence and the command buffer last recorded for it.
   * `fencePending` means a submission that signals the fence has not been observed to finish.
   */
  datatype FrameSlot = FrameSlot(fenceSignaled: bool, fencePending: bool, cmd: Option<seq<Command>>)

  /** A fence created with `eSignaled` and no command buffer yet. */
  const SIGNALED_SLOT: FrameSlot := FrameSlot(true, false, None)

  /** Waiting on the fence cannot block forever: it is signaled, or a submission will signal it. */
  predicate FenceWillSignal(s: FrameSlot)
  {
    s.fenceSignaled != s.fencePending
  }

  /** After `waitForFences` returns the fence is signaled and nothing is in flight. */
  function Waited(s: FrameSlot): FrameSlot
  {
    s.(fenceSignaled := true, fencePending := false)
  }

  /** `waitIdle`: every pending submission finishes and signals its fence. */
  function Completed(slots: seq<FrameSlot>): (r: seq<FrameSlot>)
    ensures |r| == |slots|
    ensures forall i :: 0 <= i < |r| ==> !r[i].fencePending && r[i].cmd == slots[i].cmd
    ensures forall i :: 0 <= i < |r| ==> (r[i].fenceSignaled <==> slots[i].fenceSignaled || slots[i].fencePending)
  {
    seq(|slots|, i requires 0 <= i < |slots| => if slots[i].fencePending then Waited(slots[i]) else slots[i])
  }

  /** The swapchain as the application uses it: its handle, extent and image views. */
  datatype SwapchainInfo = SwapchainInfo(handle: nat, extent: Extent2D, views: seq<ImageView>)

  /** `acquireNextImage2KHR`: an image index (possibly with a suboptimal status), or the out-of-date exception. */
  datatype AcquireResult = Acquired(imageIndex: U32, suboptimal: bool) | AcquireOutOfDate

  /** `presentKHR`, with the out-of-date exception folded into its result as the source does. */
  datatype PresentResult = PresentSuccess | PresentSuboptimal | PresentOutOfDate

  predicate NeedsRecreate(p: PresentResult)
  {
    p.PresentSuboptimal? || p.PresentOutOfDate?
  }

  /** The driver calls of the application, in the order it makes them. */
  datatype Event =
    | WaitForFence(slot: nat)
    | Acquire(slot: nat)
    | Record(slot: nat, image: nat)
    | UploadUniforms(slot: nat)
    | ResetFence(slot: nat)
    | Submit(slot: nat)
    | Present(slot: nat, image: nat)
    | BuildSwapchain(extent: Extent2D)
    | WaitIdle

  /** Every fence reset is directly followed by the submission that signals that fence, and every submission directly follows such a reset. */
  ghost predicate ResetThenSubmit(t: seq<Event>)
  {
    (forall k :: 0 <= k < |t| && t[k].ResetFence? ==> k + 1 < |t| && t[k + 1] == Submit(t[k].slot)) &&
    (forall k :: 0 <= k < |t| && t[k].Submit? ==> 0 < k && t[k - 1] == ResetFence(t[k].slot))
  }

  /** The rule holds for a log built from pieces that each obey it. */
  lemma {:induction false} ResetThenSubmitConcat(a: seq<Event>, b: seq<Event>)
    requires ResetThenSubmit(a) && ResetThenSubmit(b)
    ensures ResetThenSubmit(a + b)
  {
    var t := a + b;
    forall k | 0 <= k < |t| && t[k].ResetFence?
      ensures k + 1 < |t| && t[k + 1] == Submit(t[k].slot)
    {
      if k < |a| {
        assert t[k] == a[k] && t[k + 1] == a[k + 1];
      } else {
        assert t[k] == b[k - |a|] && t[k + 1] == b[k + 1 - |a|];
      }
    }
    forall k | 0 <= k < |t| && t[k].Submit?
      ensures 0 < k && t[k - 1] == ResetFence(t[k].slot)
    {
      if k < |a| {
        assert t[k] == a[k] && t[k - 1] == a[k - 1];
      } else {
        assert t[k] == b[k - |a|];
        assert k - |a| > 0;
        assert t[k - 1] == b[k - 1 - |a|];
      }
    }
  }

  /** The calls of a frame once its image is acquired and its command buffer filled. */
  function SubmitEvents(f: nat, image: nat): seq<Event>
  {
    [Record(f, image), UploadUniforms(f), ResetFence(f), Submit(f), Present(f, image)]
  }

  /** The calls of one frame on the normal path, before any recreation. */
  function FrameEvents(f: nat, image: nat): seq<Event>
  {
    [WaitForFence(f), Acquire(f)] + SubmitEvents(f, image)
  }

  /** A frame starts by waiting on its fence, and resets that fence directly before the submission that re-signals it. */
  lemma FrameEventsProtocol(f: nat, image: nat)
    ensures FrameEvents(f, image)[0] == WaitForFence(f)
    ensures FrameEvents(f, image)[4] == ResetFence(f) && FrameEvents(f, image)[5] == Submit(f)
    ensures ResetThenSubmit(SubmitEvents(f, image)) && ResetThenSubmit(FrameEvents(f, image))
  {
    var t := SubmitEvents(f, image);
    forall k | 0 <= k < |t| && t[k].ResetFence?
      ensures k + 1 < |t| && t[k + 1] == Submit(t[k].slot)
    {
      assert k == 2;
    }
    forall k | 0 <= k < |t| && t[k].Submit?
      ensures 0 < k && t[k - 1] == ResetFence(t[k].slot)
    {
      assert k == 3;
    }
    NoFenceOps([WaitForFence(f), Acquire(f)]);
    ResetThenSubmitConcat([WaitForFence(f), Acquire(f)], t);
  }

  /** The log of a frame is its wait and acquire followed by the rest of its calls. */
  lemma FrameTrace(t: seq<Event>, f: nat, image: nat, tail: seq<Event>)
    ensures t + [WaitForFence(f), Acquire(f)] + SubmitEvents(f, image) + tail == t + FrameEvents(f, image) + tail
  {
    assert [WaitForFence(f), Acquire(f)] + SubmitEvents(f, image) == FrameEvents(f, image);
  }

  /** The calls of `SubmitFrame`, one at a time. */
  lemma SubmitTrace(t: seq<Event>, f: nat, image: nat)
    ensures t + [Record(f, image)] + [UploadUniforms(f)] + [ResetFence(f)] + [Submit(f)] + [Present(f, image)]
         == t + SubmitEvents(f, image)
  {
  }

  /** Recording, resetting and submitting a waited slot leave it pending with the new commands. */
  lemma SubmitSlots(slots: seq<FrameSlot>, f: nat, cmds: seq<Command>)
    requires f < |slots| && slots[f].fenceSignaled && !slots[f].fencePending
    ensures var recorded := slots[f := slots[f].(cmd := Some(cmds))];
            var reset := recorded[f := recorded[f].(fenceSignaled := false)];
            reset[f := reset[f].(fencePending := true)] == slots[f := FrameSlot(false, true, Some(cmds))]
  {
  }

  /** Rewriting a slot twice keeps the second value. */
  lemma SlotRewritten(slots: seq<FrameSlot>, f: nat, a: FrameSlot, b: FrameSlot)
    requires f < |slots|
    ensures slots[f := a][f := b] == slots[f := b]
  {
  }

  /** A log without fence resets or submissions obeys the rule. */
  lemma NoFenceOps(t: seq<Event>)
    requires forall k :: 0 <= k < |t| ==> !t[k].ResetFence? && !t[k].Submit?
    ensures ResetThenSubmit(t)
  {
  }

  // ---------------------------------------------------------------------------------------------
  // Window extent

  predicate NonZero(e: Extent2D)
  {
    e.width != 0 && e.height != 0
  }

  /** The first of the window sizes the wait loop reads that has nonzero width and height. */
  function FirstNonZero(extents: seq<Extent2D>): Option<nat>
  {
    FindIf(extents, NonZero)
  }

  function WindowExtent(extents: seq<Extent2D>): Extent2D
    requires FirstNonZero(extents).Some?
  {
    extents[FirstNonZero(extents).value]
  }

  /** The calls of one `recreate_swap_chain`. */
  function RecreateEvents(extents: seq<Extent2D>): seq<Event>
    requires FirstNonZero(extents).Some?
  {
    [BuildSwapchain(WindowExtent(extents)), WaitIdle]
  }

  // ---------------------------------------------------------------------------------------------
  // The application

  class App {
    var slots: seq<FrameSlot>
    var currFrame: nat
    var verticesN: nat
    var trianglesLoaded: bool
    var swapchain: SwapchainInfo
    var framebuffers: seq<Framebuffer>
    var vertexBuffer: Option<DeviceBuffer>
    const renderPass: RenderPass
    /** `m_uniform_buffers`: one uniform buffer per frame slot. */
    const uniformBuffers: seq<DeviceBuffer>
    ghost var trace: seq<Event>

    /**
     * Two slots whose fences will all signal, a frame index below two, one framebuffer per
     * swapchain view, two separate uniform buffers, and a log that obeys the reset rule.
     */
    ghost predicate Valid()
      reads this, uniformBuffers
    {
      |slots| == MAX_FRAMES_IN_FLIGHT && currFrame < MAX_FRAMES_IN_FLIGHT &&
      (forall i :: 0 <= i < |slots| ==> FenceWillSignal(slots[i])) &&
      FramebuffersFor(framebuffers, swapchain.views, swapchain.extent, renderPass, None) &&
      |uniformBuffers| == MAX_FRAMES_IN_FLIGHT && Disjoint(uniformBuffers) &&
      (forall i :: 0 <= i < |uniformBuffers| ==> uniformBuffers[i].Valid()) &&
      ResetThenSubmit(trace)
    }

    /** The resources a step leaves alone. */
    twostate predicate ResourcesUnchanged()
      reads this
    {
      verticesN == old(verticesN) && trianglesLoaded == old(trianglesLoaded) && swapchain == old(swapchain) &&
      framebuffers == old(framebuffers) && vertexBuffer == old(vertexBuffer)
    }

    /**
     * The constructor, from the swapchain, render pass and uniform buffers it creates: the
     * framebuffers over the swapchain's views, then `initialize_sync_primitives`.
     */
    constructor (swapchain: SwapchainInfo, renderPass: RenderPass, uniformBuffers: seq<DeviceBuffer>)
      requires |uniformBuffers| == MAX_FRAMES_IN_FLIGHT && Disjoint(uniformBuffers)
      requires forall i :: 0 <= i < |uniformBuffers| ==> uniformBuffers[i].Valid()
      ensures Valid()
      ensures slots == seq(MAX_FRAMES_IN_FLIGHT, _ => SIGNALED_SLOT)
      ensures currFrame == 0 && verticesN == 0 && !trianglesLoaded && vertexBuffer == None
      ensures this.swapchain == swapchain && this.renderPass == renderPass && this.uniformBuffers == uniformBuffers
      ensures trace == []
    {
      var fbs := MakeFramebuffers(swapchain.views, swapchain.extent, renderPass, None);
      this.swapchain := swapchain;
      this.renderPass := renderPass;
      this.uniformBuffers := uniformBuffers;
      framebuffers := fbs;
      slots := [];
      currFrame := 0;
      verticesN := 0;
      trianglesLoaded := false;
      vertexBuffer := None;
      trace := [];
      new;
      InitializeSyncPrimitives();
    }

    /** `initialize_sync_primitives`: one slot per frame in flight, each fence created signaled. */
    method InitializeSyncPrimitives()
      requires slots == []
      modifies this
      ensures slots == seq(MAX_FRAMES_IN_FLIGHT, _ => SIGNALED_SLOT)
      ensures currFrame == old(currFrame) && trace == old(trace) && ResourcesUnchanged()
    {
      for i := 0 to MAX_FRAMES_IN_FLIGHT
        invariant slots == seq(i, _ => SIGNALED_SLOT)
        invariant currFrame == old(currFrame) && trace == old(trace) && ResourcesUnchanged()
      {
        slots := slots + [SIGNALED_SLOT];
      }
    }

    /**
     * `load_triangles`: the vertex count is set first; the vertex buffer is then created holding
     * the vertices, and only if that succeeds is the buffer replaced and the loaded flag set.
     */
    method LoadTriangles(vertices: seq<seq<bv8>>, elemSize: nat, p: MemoryProperties, reqs: MemoryRequirements)
      returns (r: Result<()>)
      requires Valid()
      requires WellFormed(p) && 1 <= elemSize && AllOfSize(vertices, elemSize) && SizeofContainer(elemSize, vertices) <= reqs.size
      modifies this
      ensures Valid()
      ensures verticesN == |vertices|
      ensures r.Err? <==> ChosenType(AllSlots, p, reqs.memoryTypeBits, DEFAULT_PROPERTY_FLAGS).None?
      ensures r.Err? ==> r.error == NoSuitableMemoryType && trianglesLoaded == old(trianglesLoaded) && vertexBuffer == old(vertexBuffer)
      ensures r.Ok? ==> trianglesLoaded && vertexBuffer.Some? && fresh(vertexBuffer.value) &&
                        vertexBuffer.value.usage == BUFFER_USAGE_VERTEX && |Flatten(vertices)| <= reqs.size &&
                        vertexBuffer.value.memory[..] == Write(seq(reqs.size, _ => 0), 0, Flatten(vertices))
      ensures slots == old(slots) && currFrame == old(currFrame) && trace == old(trace)
      ensures swapchain == old(swapchain) && framebuffers == old(framebuffers)
    {
      verticesN := |vertices|;
      var b := NewDeviceBufferWithData(AllSlots, p, reqs, BUFFER_USAGE_VERTEX, vertices, elemSize, DEFAULT_PROPERTY_FLAGS);
      if b.Err? {
        return Err(b.error);
      }
      vertexBuffer := Some(b.value);
      trianglesLoaded := true;
      r := Ok(());
    }

    /**
     * `fill_command_buffer`: the render pass over framebuffer `imageIndex`, taken with `at()`, so
     * an index past the framebuffers is an out-of-range error.
     */
    function FillCommandBuffer(imageIndex: nat): (r: Result<seq<Command>>)
      reads this`framebuffers, this`swapchain, this`trianglesLoaded, this`verticesN
      ensures r.Err? <==> imageIndex >= |framebuffers|
      ensures r.Err? ==> r.error == OutOfRange
      ensures r.Ok? ==> |r.value| >= 6 && r.value[0] == BeginRenderPass(renderPass, framebuffers[imageIndex], swapchain.extent)
      ensures r.Ok? ==> r.value[|r.value| - 1] == EndRenderPass
      ensures r.Ok? ==> Filter(r.value, IsDraw) == if trianglesLoaded then [Draw(verticesN % U32_MODULUS, 1, 0, 0)] else []
      ensures r.Ok? ==> (BindVertexBuffer in r.value <==> trianglesLoaded)
    {
      match At(framebuffers, imageIndex)
      case Err(e) => Err(e)
      case Ok(fb) =>
        RenderCommandsShape(renderPass, fb, swapchain.extent, trianglesLoaded, verticesN);
        Ok(RenderCommands(renderPass, fb, swapchain.extent, trianglesLoaded, verticesN))
    }

    /** `waitForFences` on slot `f`'s fence: it must be signaled or pending, or the wait never returns. */
    method WaitForSlotFence(f: nat)
      requires f < |slots| && FenceWillSignal(slots[f])
      modifies this
      ensures slots == old(slots)[f := Waited(old(slots)[f])]
      ensures currFrame == old(currFrame) && ResourcesUnchanged()
      ensures trace == old(trace) + [WaitForFence(f)]
    {
      slots := slots[f := Waited(slots[f])];
      trace := trace + [WaitForFence(f)];
    }

    /** The command buffer filled for slot `f` replaces the one it held. */
    method RecordSlot(f: nat, image: nat, cmds: seq<Command>)
      requires f < |slots|
      modifies this
      ensures slots == old(slots)[f := old(slots)[f].(cmd := Some(cmds))]
      ensures currFrame == old(currFrame) && ResourcesUnchanged()
      ensures trace == old(trace) + [Record(f, image)]
    {
      slots := slots[f := slots[f].(cmd := Some(cmds))];
      trace := trace + [Record(f, image)];
    }

    /** `resetFences`: a fence may be reset only when no pending submission uses it. */
    method ResetSlotFence(f: nat)
      requires f < |slots| && !slots[f].fencePending
      modifies this
      ensures slots == old(slots)[f := old(slots)[f].(fenceSignaled := false)]
      ensures currFrame == old(currFrame) && ResourcesUnchanged()
      ensures trace == old(trace) + [ResetFence(f)]
    {
      slots := slots[f := slots[f].(fenceSignaled := false)];
      trace := trace + [ResetFence(f)];
    }

    /** `submit` with slot `f`'s fence: the fence must be unsignaled and unused, and the slot must hold a command buffer. */
    method SubmitSlot(f: nat)
      requires f < |slots| && !slots[f].fenceSignaled && !slots[f].fencePending && slots[f].cmd.Some?
      modifies this
      ensures slots == old(slots)[f := old(slots)[f].(fencePending := true)]
      ensures currFrame == old(currFrame) && ResourcesUnchanged()
      ensures trace == old(trace) + [Submit(f)]
    {
      slots := slots[f := slots[f].(fencePending := true)];
      trace := trace + [Submit(f)];
    }

    /**
     * `recreate_swap_chain`: the window size is read until both sides are nonzero
     * (`windowExtents` are the successive reads), the new swapchain is built from that size with
     * the old one as its predecessor, the device is waited idle, and the framebuffers are rebuilt
     * from the new swapchain. `build` stands for the `ezvk::swapchain` constructor.
     */
    method RecreateSwapChain(windowExtents: seq<Extent2D>, build: (Extent2D, nat) -> SwapchainInfo)
      requires Valid() && FirstNonZero(windowExtents).Some?
      modifies this
      ensures Valid()
      ensures swapchain == build(WindowExtent(windowExtents), old(swapchain).handle)
      ensures FramebuffersFor(framebuffers, swapchain.views, swapchain.extent, renderPass, None)
      ensures slots == Completed(old(slots))
      ensures currFrame == old(currFrame) && verticesN == old(verticesN) && trianglesLoaded == old(trianglesLoaded)
      ensures vertexBuffer == old(vertexBuffer)
      ensures trace == old(trace) + RecreateEvents(windowExtents)
    {
      var first := FirstNonZero(windowExtents).value;
      var k := 0;
      var extent := windowExtents[0];
      while !NonZero(extent)
        invariant k <= first && extent == windowExtents[k]
        decreases first - k
      {
        k := k + 1;
        extent := windowExtents[k];
      }
      assert k == first && extent == WindowExtent(windowExtents);
      var next := build(extent, swapchain.handle);
      ghost var events := RecreateEvents(windowExtents);
      NoFenceOps(events);
      ResetThenSubmitConcat(trace, events);
      assert trace + [BuildSwapchain(extent)] + [WaitIdle] == trace + events;
      trace := trace + [BuildSwapchain(extent)];
      slots := Completed(slots);
      trace := trace + [WaitIdle];
      swapchain := next;
      framebuffers := MakeFramebuffers(next.views, next.extent, renderPass, None);
    }

    /**
     * The steps of `render_frame` once slot `f` has been waited on and its command buffer filled:
     * record, upload the uniform bytes into the slot's buffer, reset the fence and submit, present.
     */
    method SubmitFrame(f: nat, image: nat, cmds: seq<Command>, ubo: seq<bv8>)
      requires Valid() && f == currFrame && slots[f].fenceSignaled && !slots[f].fencePending
      requires 1 <= |ubo| <= uniformBuffers[f].memory.Length
      modifies this, uniformBuffers[f].memory
      ensures Valid()
      ensures slots == old(slots)[f := FrameSlot(false, true, Some(cmds))]
      ensures uniformBuffers[f].memory[..] == Write(old(uniformBuffers[f].memory[..]), 0, ubo)
      ensures currFrame == old(currFrame) && ResourcesUnchanged()
      ensures trace == old(trace) + SubmitEvents(f, image)
    {
      FrameEventsProtocol(f, image);
      ResetThenSubmitConcat(trace, SubmitEvents(f, image));
      SubmitTrace(trace, f, image);
      SubmitSlots(slots, f, cmds);
      RecordSlot(f, image, cmds);
      uniformBuffers[f].CopyValue(ubo);
      trace := trace + [UploadUniforms(f)];
      ResetSlotFence(f);
      SubmitSlot(f);
      trace := trace + [Present(f, image)];
    }

    /** The start of `render_frame`: the current slot's fence is waited on and an image is acquired. */
    method BeginFrame()
      requires Valid()
      modifies this
      ensures Valid()
      ensures slots == old(slots)[currFrame := Waited(old(slots)[currFrame])]
      ensures currFrame == old(currFrame) && ResourcesUnchanged()
      ensures trace == old(trace) + [WaitForFence(currFrame), Acquire(currFrame)]
    {
      NoFenceOps([WaitForFence(currFrame), Acquire(currFrame)]);
      ResetThenSubmitConcat(trace, [WaitForFence(currFrame), Acquire(currFrame)]);
      WaitForSlotFence(currFrame);
      trace := trace + [Acquire(currFrame)];
    }

    /** The end of `render_frame`: a suboptimal or out-of-date present recreates the swapchain, then the frame index advances. */
    method PresentAndAdvance(present: PresentResult, windowExtents: seq<Extent2D>, build: (Extent2D, nat) -> SwapchainInfo)
      requires Valid()
      requires NeedsRecreate(present) ==> FirstNonZero(windowExtents).Some?
      modifies this
      ensures Valid()
      ensures currFrame == (old(currFrame) + 1) % MAX_FRAMES_IN_FLIGHT
      ensures verticesN == old(verticesN) && trianglesLoaded == old(trianglesLoaded) && vertexBuffer == old(vertexBuffer)
      ensures NeedsRecreate(present) ==>
                swapchain == build(WindowExtent(windowExtents), old(swapchain).handle) &&
                slots == Completed(old(slots)) && trace == old(trace) + RecreateEvents(windowExtents)
      ensures !NeedsRecreate(present) ==>
                swapchain == old(swapchain) && framebuffers == old(framebuffers) && slots == old(slots) && trace == old(trace)
    {
      if NeedsRecreate(present) {
        RecreateSwapChain(windowExtents, build);
      }
      currFrame := (currFrame + 1) % MAX_FRAMES_IN_FLIGHT;
    }

    /**
     * `render_frame` after the wait and the acquire of image `i`: fill the command buffer (the
     * out-of-range error of `at()` leaves everything as it is), submit, present and advance.
     */
    method DrawFrame(i: nat, present: PresentResult, ubo: seq<bv8>,
                     windowExtents: seq<Extent2D>, build: (Extent2D, nat) -> SwapchainInfo)
      returns (r: Result<()>)
      requires Valid() && slots[currFrame].fenceSignaled && !slots[currFrame].fencePending
      requires 1 <= |ubo| <= uniformBuffers[currFrame].memory.Length
      requires NeedsRecreate(present) ==> FirstNonZero(windowExtents).Some?
      modifies this, uniformBuffers[currFrame].memory
      ensures Valid()
      ensures verticesN == old(verticesN) && trianglesLoaded == old(trianglesLoaded) && vertexBuffer == old(vertexBuffer)
      ensures r.Err? <==> i >= old(|framebuffers|)
      ensures r.Err? ==>
                r.error == OutOfRange && currFrame == old(currFrame) && swapchain == old(swapchain) &&
                slots == old(slots) && trace == old(trace) &&
                uniformBuffers[currFrame].memory[..] == old(uniformBuffers[currFrame].memory[..])
      ensures r.Ok? ==>
                currFrame == (old(currFrame) + 1) % MAX_FRAMES_IN_FLIGHT &&
                uniformBuffers[old(currFrame)].memory[..] == Write(old(uniformBuffers[currFrame].memory[..]), 0, ubo)
      ensures r.Ok? ==>
                var cmds := RenderCommands(renderPass, old(framebuffers[i]), old(swapchain.extent), old(trianglesLoaded), old(verticesN));
                var submitted := old(slots)[old(currFrame) := FrameSlot(false, true, Some(cmds))];
                slots == if NeedsRecreate(present) then Completed(submitted) else submitted
      ensures r.Ok? ==>
                trace == old(trace) + SubmitEvents(old(currFrame), i) +
                         (if NeedsRecreate(present) then RecreateEvents(windowExtents) else [])
      ensures r.Ok? && NeedsRecreate(present) ==> swapchain == build(WindowExtent(windowExtents), old(swapchain).handle)
      ensures r.Ok? && !NeedsRecreate(present) ==> swapchain == old(swapchain) && framebuffers == old(framebuffers)
    {
      var cmds := FillCommandBuffer(i);
      if cmds.Err? {
        return Err(cmds.error);
      }
      SubmitFrame(currFrame, i, cmds.value, ubo);
      PresentAndAdvance(present, windowExtents, build);
      r := Ok(());
    }

    /**
     * `render_frame`. The slot's fence is waited on and an image acquired. An out-of-date acquire
     * recreates the swapchain and returns without recording, submitting, presenting or advancing.
     * Otherwise the slot's command buffer is filled, its uniform buffer receives `ubo` (the bytes
     * of the MVP matrix), its fence is reset directly before the submission that re-signals it,
     * and the image is presented; a suboptimal or out-of-date present recreates the swapchain once,
     * and the frame index advances modulo two in either case. An image index past the framebuffers
     * is the out-of-range error of `at()`, raised before anything is recorded.
     */
    method RenderFrame(acquire: AcquireResult, present: PresentResult, ubo: seq<bv8>,
                       windowExtents: seq<Extent2D>, build: (Extent2D, nat) -> SwapchainInfo)
      returns (r: Result<()>)
      requires Valid()
      requires 1 <= |ubo| && forall i :: 0 <= i < |uniformBuffers| ==> |ubo| <= uniformBuffers[i].memory.Length
      requires acquire.AcquireOutOfDate? || NeedsRecreate(present) ==> FirstNonZero(windowExtents).Some?
      modifies this, uniformBuffers[currFrame].memory
      ensures Valid()
      ensures verticesN == old(verticesN) && trianglesLoaded == old(trianglesLoaded) && vertexBuffer == old(vertexBuffer)
      // acquire out of date: recreate, return, do not advance
      ensures acquire.AcquireOutOfDate? ==> r.Ok? && currFrame == old(currFrame)
      ensures acquire.AcquireOutOfDate? ==> swapchain == build(WindowExtent(windowExtents), old(swapchain).handle)
      ensures acquire.AcquireOutOfDate? ==> slots == Completed(old(slots)[old(currFrame) := Waited(old(slots)[old(currFrame)])])
      ensures acquire.AcquireOutOfDate? ==> uniformBuffers[currFrame].memory[..] == old(uniformBuffers[currFrame].memory[..])
      ensures acquire.AcquireOutOfDate? ==>
                trace == old(trace) + [WaitForFence(currFrame), Acquire(currFrame)] + RecreateEvents(windowExtents)
      // image index past the framebuffers: the error of `at()`
      ensures acquire.Acquired? && acquire.imageIndex >= old(|framebuffers|) ==>
                r == Err(OutOfRange) && currFrame == old(currFrame) && swapchain == old(swapchain) &&
                slots == old(slots)[currFrame := Waited(old(slots)[currFrame])] &&
                uniformBuffers[currFrame].memory[..] == old(uniformBuffers[currFrame].memory[..]) &&
                trace == old(trace) + [WaitForFence(currFrame), Acquire(currFrame)]
      // normal path
      ensures acquire.Acquired? && acquire.imageIndex < old(|framebuffers|) ==>
                r.Ok? && currFrame == (old(currFrame) + 1) % MAX_FRAMES_IN_FLIGHT
      ensures acquire.Acquired? && acquire.imageIndex < old(|framebuffers|) ==>
                uniformBuffers[old(currFrame)].memory[..] == Write(old(uniformBuffers[currFrame].memory[..]), 0, ubo)
      ensures acquire.Acquired? && acquire.imageIndex < old(|framebuffers|) ==>
                var cmds := RenderCommands(renderPass, old(framebuffers[acquire.imageIndex]), old(swapchain.extent),
                                           old(trianglesLoaded), old(verticesN));
                var submitted := old(slots)[old(currFrame) := FrameSlot(false, true, Some(cmds))];
                slots == if NeedsRecreate(present) then Completed(submitted) else submitted
      ensures acquire.Acquired? && acquire.imageIndex < old(|framebuffers|) ==>
                trace == old(trace) + FrameEvents(old(currFrame), acquire.imageIndex) +
                         (if NeedsRecreate(present) then RecreateEvents(windowExtents) else [])
      ensures acquire.Acquired? && acquire.imageIndex < old(|framebuffers|) && NeedsRecreate(present) ==>
                swapchain == build(WindowExtent(windowExtents), old(swapchain).handle)
      ensures acquire.Acquired? && acquire.imageIndex < old(|framebuffers|) && !NeedsRecreate(present) ==>
                swapchain == old(swapchain) && framebuffers == old(framebuffers)
    {
      var f := currFrame;
      BeginFrame();
      if acquire.AcquireOutOfDate? {
        RecreateSwapChain(windowExtents, build);
        return Ok(());
      }
      var i := acquire.imageIndex;
      if i < |framebuffers| {
        ghost var cmds := RenderCommands(renderPass, framebuffers[i], swapchain.extent, trianglesLoaded, verticesN);
        SlotRewritten(old(slots), f, Waited(old(slots)[f]), FrameSlot(false, true, Some(cmds)));
      }
      FrameTrace(old(trace), f, i, if NeedsRecreate(present) then RecreateEvents(windowExtents) else []);
      r := DrawFrame(i, present, ubo, windowExtents, build);
    }
  }

  // ---------------------------------------------------------------------------------------------
  // Queue families

  /** The families chosen for graphics and present, and the queue requests made for them. */
  datatype QueueSelection = QueueSelection(graphicsFamily: nat, presentFamily: nat, requests: seq<DeviceQueueCreateInfo>)

  predicate GraphicsFamily(properties: seq<QueueFamilyProperties>, i: nat)
  {
    HasQueueType(properties, QUEUE_GRAPHICS, i)
  }

  /** A family that supports both graphics and presentation. */
  predicate CombinedFamily(properties: seq<QueueFamilyProperties>, surfaceSupport: seq<bool>, i: nat)
  {
    GraphicsFamily(properties, i) && Supported(surfaceSupport, i)
  }

  lemma FrontIsLeast(s: seq<nat>, x: nat)
    requires StrictlyIncreasing(s) && x in s
    ensures s[0] <= x
  {
  }

  /**
   * `initialize_logical_device_queues`: the graphics and present family lists are intersected.
   * With no common family the front of each list is chosen and two queue requests are made;
   * otherwise the first common family serves both and one request is made. The fronts must
   * exist (`front()` of an empty vector is undefined).
   */
  method InitializeLogicalDeviceQueues(properties: seq<QueueFamilyProperties>, surfaceSupport: seq<bool>)
    returns (s: QueueSelection)
    requires |surfaceSupport| == |properties|
    requires exists i: nat :: GraphicsFamily(properties, i)
    requires exists i: nat :: Supported(surfaceSupport, i)
    ensures GraphicsFamily(properties, s.graphicsFamily) && Supported(surfaceSupport, s.presentFamily)
    ensures (exists i: nat :: CombinedFamily(properties, surfaceSupport, i)) ==>
              s.graphicsFamily == s.presentFamily &&
              (forall j: nat :: j < s.graphicsFamily ==> !CombinedFamily(properties, surfaceSupport, j)) &&
              s.requests == [DeviceQueueCreateInfo(s.graphicsFamily, 1)]
    ensures (forall i: nat :: !CombinedFamily(properties, surfaceSupport, i)) ==>
              s.graphicsFamily != s.presentFamily &&
              (forall j: nat :: j < s.graphicsFamily ==> !GraphicsFamily(properties, j)) &&
              (forall j: nat :: j < s.presentFamily ==> !Supported(surfaceSupport, j)) &&
              s.requests == [DeviceQueueCreateInfo(s.graphicsFamily, 1), DeviceQueueCreateInfo(s.presentFamily, 1)]
  {
    var graphics := FindFamilyIndicesWithQueueType(properties, QUEUE_GRAPHICS);
    var present := FindPresentFamilyIndices(|properties|, surfaceSupport);
    var intersection := SetIntersection(graphics, present);
    if intersection == [] {
      var gi: nat :| GraphicsFamily(properties, gi);
      var pi: nat :| Supported(surfaceSupport, pi);
      assert gi in graphics && pi in present;
      var g, p := graphics[0], present[0];
      assert g in graphics && p in present;
      forall j: nat | j < g
        ensures !GraphicsFamily(properties, j)
      {
        if GraphicsFamily(properties, j) {
          FrontIsLeast(graphics, j);
        }
      }
      forall j: nat | j < p
        ensures !Supported(surfaceSupport, j)
      {
        if Supported(surfaceSupport, j) {
          FrontIsLeast(present, j);
        }
      }
      assert !CombinedFamily(properties, surfaceSupport, g);
      s := QueueSelection(g, p, [DeviceQueueCreateInfo(g, 1), DeviceQueueCreateInfo(p, 1)]);
    } else {
      var c := intersection[0];
      assert c in intersection;
      assert CombinedFamily(properties, surfaceSupport, c);
      forall j: nat | j < c
        ensures !CombinedFamily(properties, surfaceSupport, j)
      {
        if CombinedFamily(properties, surfaceSupport, j) {
          assert j in graphics && j in present;
          FrontIsLeast(intersection, j);
        }
      }
      s := QueueSelection(c, c, [DeviceQueueCreateInfo(c, 1)]);
    }
  }
}
