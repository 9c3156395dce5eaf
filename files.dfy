/**
 * The file system as the prescription code sees it: file contents by path.  Whether a delete or a
 * write fails (permissions, I/O errors) is an input of each operation.
 */
module Files {
  import opened Wrappers
  import opened Errors

  datatype FileFault = NoFault | DeleteFault | WriteFault

  /** `directory / name` */
  function JoinPath(directory: string, name: string): string {
    directory + "/" + name
  }

  class Disk {
    var files: map<string, string>

    constructor (files: map<string, string>)
      ensures this.files == files
    {
      this.files := files;
    }

    /** `path.exists()` */
    function Exists(path: string): bool
      reads this
    {
      path in files
    }

    /** `path.unlink()` on an existing file; a failure surfaces as the exception it raises. */
    method Unlink(path: string, fault: FileFault) returns (r: Outcome<AppError>)
      modifies this
      ensures fault == DeleteFault || path !in old(files) ==> r == Fail(UnexpectedError) && files == old(files)
      ensures fault != DeleteFault && path in old(files) ==> r == Pass && files == old(files) - {path}
    {
      if fault == DeleteFault || path !in files {
        return Fail(UnexpectedError);
      }
      files := files - {path};
      return Pass;
    }

    /** `safe_delete`: removes the file if there is one; a failing unlink is a FileOperationError. */
    method SafeDelete(path: string, fault: FileFault) returns (r: Outcome<AppError>)
      modifies this
      ensures path !in old(files) ==> r == Pass && files == old(files)
      ensures path in old(files) && fault == DeleteFault ==> r == Fail(FileOperationError) && files == old(files)
      ensures path in old(files) && fault != DeleteFault ==> r == Pass && files == old(files) - {path}
    {
      if path in files {
        if fault == DeleteFault {
          return Fail(FileOperationError);
        }
        files := files - {path};
      }
      return Pass;
    }

    /** `safe_write`: replaces the file's content; a failing write is a FileOperationError. */
    method SafeWrite(path: string, content: string, fault: FileFault) returns (r: Outcome<AppError>)
      modifies this
      ensures fault == WriteFault ==> r == Fail(FileOperationError) && files == old(files)
      ensures fault != WriteFault ==> r == Pass && files == old(files)[path := content]
    {
      if fault == WriteFault {
        return Fail(FileOperationError);
      }
      files := files[path := content];
      return Pass;
    }
  }
}
