/** The sizes fixed in param.h and fs.h that the modules below share. */
module Params {
  const MAXOPBLOCKS := 10
  const LOGSIZE := 30
  const PIPESIZE := 512
}
