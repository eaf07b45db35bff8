/**
 * `ezvk::upload_context`: one command buffer and one fence for blocking transfers. The fence and
 * the command buffer are state the methods change; each driver call is a step whose precondition
 * is the usage rule the Vulkan specification puts on that call.
 */
module Upload {

  /** A command the caller's recorder puts into the upload command buffer. */
  datatype TransferCommand = TransferCommand(id: nat)

  /** The lifecycle of a command buffer. */
  datatype CommandBufferState = Initial | Recording(commands: seq<TransferCommand>) | Executable(commands: seq<TransferCommand>)

  /** The driver calls `immediate_submit` makes, in the order they happen. */
  datatype UploadEvent = Begin | Record(commands: seq<TransferCommand>) | End | Submit | WaitFence | ResetFence | ResetCommandBuffer

  class UploadContext {
    /** The upload fence is signaled. */
    var fenceSignaled: bool
    /** A submission that will signal the fence has not been observed to complete. */
    var fencePending: bool
    var commandBuffer: CommandBufferState
    /** The command lists that reached the transfer queue, in submission order. */
    var submissions: seq<seq<TransferCommand>>
    ghost var log: seq<UploadEvent>

    /** Between uploads: fence unsignaled with nothing in flight, command buffer reset. */
    predicate Idle()
      reads this
    {
      !fenceSignaled && !fencePending && commandBuffer == Initial
    }

    /** The constructor: a fresh command buffer and a fence created unsignaled (`createFence({})`). */
    constructor ()
      ensures Idle() && submissions == [] && log == []
    {
      fenceSignaled := false;
      fencePending := false;
      commandBuffer := Initial;
      submissions := [];
      log := [];
    }

    /** `begin`: only a command buffer in the initial state may start recording. */
    method BeginCommandBuffer()
      requires commandBuffer == Initial
      modifies this
      ensures commandBuffer == Recording([])
      ensures fenceSignaled == old(fenceSignaled) && fencePending == old(fencePending) && submissions == old(submissions)
      ensures log == old(log) + [Begin]
    {
      commandBuffer := Recording([]);
      log := log + [Begin];
    }

    /** The recorder callback, called on the recording buffer. */
    method RunRecorder(recorder: seq<TransferCommand>)
      requires commandBuffer.Recording?
      modifies this
      ensures commandBuffer == Recording(old(commandBuffer).commands + recorder)
      ensures fenceSignaled == old(fenceSignaled) && fencePending == old(fencePending) && submissions == old(submissions)
      ensures log == old(log) + [Record(recorder)]
    {
      commandBuffer := Recording(commandBuffer.commands + recorder);
      log := log + [Record(recorder)];
    }

    /** `end`: recording finishes and the buffer becomes executable. */
    method EndCommandBuffer()
      requires commandBuffer.Recording?
      modifies this
      ensures commandBuffer == Executable(old(commandBuffer).commands)
      ensures fenceSignaled == old(fenceSignaled) && fencePending == old(fencePending) && submissions == old(submissions)
      ensures log == old(log) + [End]
    {
      commandBuffer := Executable(commandBuffer.commands);
      log := log + [End];
    }

    /** `submit` with the upload fence: the buffer must be executable and the fence unsignaled and unused. */
    method SubmitToTransferQueue()
      requires commandBuffer.Executable? && !fenceSignaled && !fencePending
      modifies this
      ensures fencePending && !fenceSignaled && commandBuffer == old(commandBuffer)
      ensures submissions == old(submissions) + [old(commandBuffer).commands]
      ensures log == old(log) + [Submit]
    {
      submissions := submissions + [commandBuffer.commands];
      fencePending := true;
      log := log + [Submit];
    }

    /** `waitForFences`: returns once the fence is signaled; a fence neither signaled nor pending would block forever. */
    method WaitForFence()
      requires fenceSignaled || fencePending
      modifies this
      ensures fenceSignaled && !fencePending
      ensures commandBuffer == old(commandBuffer) && submissions == old(submissions)
      ensures log == old(log) + [WaitFence]
    {
      fenceSignaled := true;
      fencePending := false;
      log := log + [WaitFence];
    }

    /** `resetFences`: the fence must not be in use by a pending submission. */
    method ResetUploadFence()
      requires !fencePending
      modifies this
      ensures !fenceSignaled && !fencePending
      ensures commandBuffer == old(commandBuffer) && submissions == old(submissions)
      ensures log == old(log) + [ResetFence]
    {
      fenceSignaled := false;
      log := log + [ResetFence];
    }

    /** `reset` of the command buffer: it must not be pending execution. */
    method ResetUploadCommandBuffer()
      requires !fencePending
      modifies this
      ensures commandBuffer == Initial
      ensures fenceSignaled == old(fenceSignaled) && fencePending == old(fencePending) && submissions == old(submissions)
      ensures log == old(log) + [ResetCommandBuffer]
    {
      commandBuffer := Initial;
      log := log + [ResetCommandBuffer];
    }

    /**
     * `immediate_submit`: the recorder runs once between begin and end, the buffer is submitted
     * with the upload fence, the fence is waited on and reset and the buffer is reset, so the
     * context is idle again and exactly the recorded commands have been submitted.
     */
    method ImmediateSubmit(recorder: seq<TransferCommand>)
      requires Idle()
      modifies this
      ensures Idle()
      ensures submissions == old(submissions) + [recorder]
      ensures log == old(log) + [Begin, Record(recorder), End, Submit, WaitFence, ResetFence, ResetCommandBuffer]
    {
      BeginCommandBuffer();
      RunRecorder(recorder);
      assert commandBuffer.commands == [] + recorder == recorder;
      EndCommandBuffer();
      SubmitToTransferQueue();
      WaitForFence();
      ResetUploadFence();
      ResetUploadCommandBuffer();
    }
  }
}
