/** Option and Result values standing for the source's null handles and thrown exceptions. */
module Wrappers {

  datatype Option<+T> = None | Some(value: T)

  /** The errors the modelled code reports by throwing. */
  datatype Error =
    | NoSuitableMemoryType        // vk_memory_error / runtime_error in find_memory_type
    | NoGraphicsFamily            // "Device does not support all the required queue family indices"
    | NoPresentFamily             // same message, raised after the present search
    | OutOfRange                  // std::vector::at with a position past the end
    | UnsupportedInstance         // "Not all the requested extensions are supported"

  datatype Result<+T> = Ok(value: T) | Err(error: Error)
}
